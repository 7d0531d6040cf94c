// A stable sort by a comparison, and why every stable sort gives the same answer
// when the comparison is consistent. Array.prototype.sort is stable, and leaves
// the order unspecified when the comparison is not consistent.
module StableSort {
  // A consistent comparison on the values of s.
  ghost predicate StrictWeak<T(!new)>(less: (T, T) -> bool, s: seq<T>) {
    && (forall a, b :: a in s && b in s && less(a, b) ==> !less(b, a))
    && (forall a, b, c :: a in s && b in s && c in s && less(a, b) ==> less(a, c) || less(c, b))
  }

  ghost predicate SortedBy<T>(less: (T, T) -> bool, s: seq<T>) {
    forall i, j :: 0 <= i < j < |s| ==> !less(s[j], s[i])
  }

  predicate Ties<T>(less: (T, T) -> bool, a: T, b: T) {
    !less(a, b) && !less(b, a)
  }

  // The values of s that tie with x, in order.
  function TiedWith<T>(less: (T, T) -> bool, x: T, s: seq<T>): seq<T> {
    if s == [] then []
    else (if Ties(less, x, s[0]) then [s[0]] else []) + TiedWith(less, x, s[1..])
  }

  // Values that tie keep their order.
  ghost predicate SameTies<T(!new)>(less: (T, T) -> bool, s: seq<T>, t: seq<T>) {
    forall x :: x in s ==> TiedWith(less, x, s) == TiedWith(less, x, t)
  }

  function Insert<T>(less: (T, T) -> bool, x: T, s: seq<T>): (r: seq<T>)
    ensures multiset(r) == multiset(s) + multiset{x}
    ensures |r| == |s| + 1
  {
    if s == [] || !less(s[0], x) then [x] + s
    else
      var r := [s[0]] + Insert(less, x, s[1..]);
      assert s == [s[0]] + s[1..];
      r
  }

  // Whatever the comparison, sorting permutes.
  function Sort<T>(less: (T, T) -> bool, s: seq<T>): (r: seq<T>)
    ensures multiset(r) == multiset(s)
    ensures |r| == |s|
  {
    if s == [] then []
    else
      assert s == [s[0]] + s[1..];
      Insert(less, s[0], Sort(less, s[1..]))
  }

  lemma SameValues<T>(s: seq<T>, t: seq<T>)
    requires multiset(s) == multiset(t)
    ensures forall x :: x in s <==> x in t
  {
    assert forall x :: x in s <==> x in multiset(s);
    assert forall x :: x in t <==> x in multiset(t);
  }

  predicate Within<T(==)>(s: seq<T>, u: seq<T>) {
    forall x :: x in s ==> x in u
  }

  lemma {:induction false} InsertSorts<T(!new)>(less: (T, T) -> bool, u: seq<T>, x: T, s: seq<T>)
    requires StrictWeak(less, u) && x in u && Within(s, u) && SortedBy(less, s)
    ensures SortedBy(less, Insert(less, x, s))
  {
    if s == [] {
    } else if less(s[0], x) {
      var rest := Insert(less, x, s[1..]);
      InsertSorts(less, u, x, s[1..]);
      forall j | 0 <= j < |rest| ensures !less(rest[j], s[0]) {
        assert rest[j] in multiset(rest);
        assert rest[j] in s[1..] || rest[j] == x;
      }
    }
  }

  lemma {:induction false} SortSorts<T(!new)>(less: (T, T) -> bool, u: seq<T>, s: seq<T>)
    requires StrictWeak(less, u) && Within(s, u)
    ensures SortedBy(less, Sort(less, s))
  {
    if s != [] {
      SortSorts(less, u, s[1..]);
      SameValues(Sort(less, s[1..]), s[1..]);
      InsertSorts(less, u, s[0], Sort(less, s[1..]));
    }
  }

  lemma NotTiedWithBoth<T(!new)>(less: (T, T) -> bool, u: seq<T>, y: T, a: T, b: T)
    requires StrictWeak(less, u) && y in u && a in u && b in u && less(a, b)
    ensures !Ties(less, y, a) || !Ties(less, y, b)
  {
  }

  lemma TiedCons<T>(less: (T, T) -> bool, y: T, x: T, s: seq<T>)
    ensures TiedWith(less, y, [x] + s) == (if Ties(less, y, x) then [x] else []) + TiedWith(less, y, s)
  {
    assert ([x] + s)[1..] == s;
  }

  // Values that do not both tie may change places.
  lemma TiesSwap<T>(less: (T, T) -> bool, y: T, a: T, b: T, s: seq<T>)
    requires !Ties(less, y, a) || !Ties(less, y, b)
    ensures TiedWith(less, y, [a] + ([b] + s)) == TiedWith(less, y, [b] + ([a] + s))
  {
    TiedCons(less, y, a, [b] + s);
    TiedCons(less, y, b, s);
    TiedCons(less, y, b, [a] + s);
    TiedCons(less, y, a, s);
  }

  lemma {:induction false} InsertKeepsTies<T(!new)>(less: (T, T) -> bool, u: seq<T>, x: T, s: seq<T>, y: T)
    requires StrictWeak(less, u) && x in u && y in u && Within(s, u)
    ensures TiedWith(less, y, Insert(less, x, s)) == TiedWith(less, y, [x] + s)
  {
    if s != [] && less(s[0], x) {
      InsertKeepsTies(less, u, x, s[1..], y);
      NotTiedWithBoth(less, u, y, s[0], x);
      TiedCons(less, y, s[0], Insert(less, x, s[1..]));
      TiedCons(less, y, s[0], [x] + s[1..]);
      TiesSwap(less, y, s[0], x, s[1..]);
      assert s == [s[0]] + s[1..];
    }
  }

  // A stable sort: values that tie keep the order they came in.
  lemma {:induction false} SortIsStable<T(!new)>(less: (T, T) -> bool, u: seq<T>, s: seq<T>, y: T)
    requires StrictWeak(less, u) && y in u && Within(s, u)
    ensures TiedWith(less, y, Sort(less, s)) == TiedWith(less, y, s)
  {
    if s != [] {
      SortIsStable(less, u, s[1..], y);
      SameValues(Sort(less, s[1..]), s[1..]);
      InsertKeepsTies(less, u, s[0], Sort(less, s[1..]), y);
      TiedCons(less, y, s[0], Sort(less, s[1..]));
    }
  }

  // ----- every stable sort is this one ------------------------------------------

  lemma {:induction false} TiedMembers<T(!new)>(less: (T, T) -> bool, y: T, s: seq<T>)
    ensures forall x :: x in TiedWith(less, y, s) <==> x in s && Ties(less, y, x)
  {
    if s != [] {
      TiedMembers(less, y, s[1..]);
    }
  }

  lemma OnlyTheEmptyListHasNoTies<T(!new)>(less: (T, T) -> bool, u: seq<T>, s: seq<T>)
    requires StrictWeak(less, u) && Within(s, u)
    ensures s != [] ==> TiedWith(less, s[0], s) != []
  {
    if s != [] {
      assert s[0] in u && !less(s[0], s[0]);
    }
  }

  lemma TailsTie<T(!new)>(less: (T, T) -> bool, y: T, s: seq<T>, t: seq<T>)
    requires s != [] && t != [] && s[0] == t[0] && TiedWith(less, y, s) == TiedWith(less, y, t)
    ensures TiedWith(less, y, s[1..]) == TiedWith(less, y, t[1..])
  {
    var head := if Ties(less, y, s[0]) then [s[0]] else [];
    assert TiedWith(less, y, s) == head + TiedWith(less, y, s[1..]);
    assert TiedWith(less, y, t) == head + TiedWith(less, y, t[1..]);
    assert TiedWith(less, y, s)[|head|..] == TiedWith(less, y, s[1..]);
    assert TiedWith(less, y, t)[|head|..] == TiedWith(less, y, t[1..]);
  }

  // Two sorted lists whose ties agree are the same list.
  lemma {:induction false} SortedListsAgree<T(!new)>(less: (T, T) -> bool, u: seq<T>, s: seq<T>, t: seq<T>)
    requires StrictWeak(less, u) && Within(s, u) && Within(t, u)
    requires SortedBy(less, s) && SortedBy(less, t)
    requires forall y :: y in u ==> TiedWith(less, y, s) == TiedWith(less, y, t)
    ensures s == t
  {
    if s == [] {
      OnlyTheEmptyListHasNoTies(less, u, t);
    } else if t == [] {
      OnlyTheEmptyListHasNoTies(less, u, s);
    } else {
      HeadsAgree(less, u, s, t);
      forall y | y in u ensures TiedWith(less, y, s[1..]) == TiedWith(less, y, t[1..]) {
        TailsTie(less, y, s, t);
      }
      SortedListsAgree(less, u, s[1..], t[1..]);
      assert s == [s[0]] + s[1..] && t == [t[0]] + t[1..];
    }
  }

  lemma HeadsAgree<T(!new)>(less: (T, T) -> bool, u: seq<T>, s: seq<T>, t: seq<T>)
    requires StrictWeak(less, u) && Within(s, u) && Within(t, u) && s != [] && t != []
    requires SortedBy(less, s) && SortedBy(less, t)
    requires forall y :: y in u ==> TiedWith(less, y, s) == TiedWith(less, y, t)
    ensures s[0] == t[0]
  {
    TiedMembers(less, s[0], s);
    TiedMembers(less, s[0], t);
    TiedMembers(less, t[0], s);
    TiedMembers(less, t[0], t);
    assert s[0] in t && t[0] in s;
    assert !less(s[0], t[0]) && !less(t[0], s[0]);
    assert TiedWith(less, s[0], s)[0] == s[0];
    assert TiedWith(less, s[0], t)[0] == t[0];
  }

  // With a consistent comparison there is only one stable sorted arrangement, so
  // what an engine's stable sort returns is Sort.
  lemma StableSortIsUnique<T(!new)>(less: (T, T) -> bool, s: seq<T>, t: seq<T>)
    requires StrictWeak(less, s) && multiset(t) == multiset(s)
    requires SortedBy(less, t) && SameTies(less, s, t)
    ensures t == Sort(less, s)
  {
    SameValues(t, s);
    SameValues(Sort(less, s), s);
    SortSorts(less, s, s);
    forall y | y in s ensures TiedWith(less, y, t) == TiedWith(less, y, Sort(less, s)) {
      SortIsStable(less, s, s, y);
    }
    SortedListsAgree(less, s, t, Sort(less, s));
  }

  // The values of `picked` stand in `all`, in the same order, each at a place of
  // its own.
  ghost predicate Picks<T>(picked: seq<T>, all: seq<T>)
    decreases |all|
  {
    || picked == []
    || (all != []
        && var front := all[..|all| - 1];
           (picked[|picked| - 1] == all[|all| - 1] && Picks(picked[..|picked| - 1], front)) || Picks(picked, front))
  }

  lemma PickOneMore<T>(picked: seq<T>, all: seq<T>, x: T)
    requires Picks(picked, all)
    ensures Picks(picked, all + [x]) && Picks(picked + [x], all + [x])
  {
    assert (all + [x])[..|all|] == all && (picked + [x])[..|picked|] == picked;
  }
}
