/** Total orders, lexicographic order, and a sort whose result depends only on the elements. */
module Orders {

  /** A strict order in which being incomparable is an equivalence: what a sort needs. */
  ghost predicate Weak<T(!new)>(less: (T, T) -> bool) {
    && (forall a :: !less(a, a))
    && (forall a, b, c :: less(a, b) && less(b, c) ==> less(a, c))
    && (forall a, b, c :: less(a, b) ==> less(a, c) || less(c, b))
  }

  ghost predicate Total<T(!new)>(less: (T, T) -> bool) {
    && (forall a :: !less(a, a))
    && (forall a, b, c :: less(a, b) && less(b, c) ==> less(a, c))
    && (forall a, b :: a == b || less(a, b) || less(b, a))
  }

  predicate Lex<T(==)>(less: (T, T) -> bool, a: seq<T>, b: seq<T>) {
    b != [] && (a == [] || less(a[0], b[0]) || (a[0] == b[0] && Lex(less, a[1..], b[1..])))
  }

  lemma {:induction false} LexIrreflexive<T(!new)>(less: (T, T) -> bool, a: seq<T>)
    requires Total(less)
    ensures !Lex(less, a, a)
  {
    if a != [] { LexIrreflexive(less, a[1..]); }
  }

  lemma {:induction false} LexConnected<T(!new)>(less: (T, T) -> bool, a: seq<T>, b: seq<T>)
    requires Total(less)
    ensures a == b || Lex(less, a, b) || Lex(less, b, a)
  {
    if a != [] && b != [] && a[0] == b[0] {
      LexConnected(less, a[1..], b[1..]);
      assert a == [a[0]] + a[1..] && b == [b[0]] + b[1..];
    }
  }

  lemma {:induction false} LexTransitive<T(!new)>(less: (T, T) -> bool, a: seq<T>, b: seq<T>, c: seq<T>)
    requires Total(less) && Lex(less, a, b) && Lex(less, b, c)
    ensures Lex(less, a, c)
  {
    if a != [] && a[0] == b[0] && b[0] == c[0] {
      LexTransitive(less, a[1..], b[1..], c[1..]);
    }
  }

  ghost predicate Sorted<T(!new)>(less: (T, T) -> bool, s: seq<T>) {
    forall i, j :: 0 <= i < j < |s| ==> !less(s[j], s[i])
  }

  function Insert<T>(less: (T, T) -> bool, x: T, s: seq<T>): seq<T> {
    if s == [] || !less(s[0], x) then [x] + s else [s[0]] + Insert(less, x, s[1..])
  }

  function Sort<T>(less: (T, T) -> bool, s: seq<T>): seq<T> {
    if s == [] then [] else Insert(less, s[0], Sort(less, s[1..]))
  }

  lemma {:induction false} InsertHolds<T(!new)>(less: (T, T) -> bool, x: T, s: seq<T>)
    ensures multiset(Insert(less, x, s)) == multiset(s) + multiset{x}
  {
    if s != [] && less(s[0], x) {
      InsertHolds(less, x, s[1..]);
      assert s == [s[0]] + s[1..];
    }
  }

  lemma {:induction false} InsertSorts<T(!new)>(less: (T, T) -> bool, x: T, s: seq<T>)
    requires Weak(less) && Sorted(less, s)
    ensures Sorted(less, Insert(less, x, s))
  {
    if s != [] {
      var t := Insert(less, x, s[1..]);
      if less(s[0], x) {
        InsertSorts(less, x, s[1..]);
        InsertHolds(less, x, s[1..]);
        forall j | 0 <= j < |t| ensures !less(t[j], s[0]) {
          assert t[j] in multiset(t);
          if t[j] != x {
            assert t[j] in s[1..];
          }
        }
      }
    }
  }

  lemma {:induction false} SortHolds<T(!new)>(less: (T, T) -> bool, s: seq<T>)
    ensures multiset(Sort(less, s)) == multiset(s)
  {
    if s != [] {
      SortHolds(less, s[1..]);
      InsertHolds(less, s[0], Sort(less, s[1..]));
      assert s == [s[0]] + s[1..];
    }
  }

  lemma {:induction false} SortSorts<T(!new)>(less: (T, T) -> bool, s: seq<T>)
    requires Weak(less)
    ensures Sorted(less, Sort(less, s))
  {
    if s != [] {
      SortSorts(less, s[1..]);
      InsertSorts(less, s[0], Sort(less, s[1..]));
    }
  }

  /** Two sorted lists of the same elements are the same list: sorting forgets the order it was given. */
  lemma {:induction false} SortedIsUnique<T(!new)>(less: (T, T) -> bool, a: seq<T>, b: seq<T>)
    requires Total(less) && Sorted(less, a) && Sorted(less, b) && multiset(a) == multiset(b)
    ensures a == b
  {
    assert |a| == |multiset(a)| && |b| == |multiset(b)|;
    if a != [] {
      HeadIsLeast(less, a, b[0]);
      HeadIsLeast(less, b, a[0]);
      hide Sorted;
      TailIsSorted(less, a);
      TailIsSorted(less, b);
      Behead(a);
      Behead(b);
      SortedIsUnique(less, a[1..], b[1..]);
    }
  }

  lemma {:induction false} Behead<T>(a: seq<T>)
    requires a != []
    ensures a == [a[0]] + a[1..] && multiset(a[1..]) == multiset(a) - multiset{a[0]}
  {
    assert a == [a[0]] + a[1..];
  }

  lemma {:induction false} HeadIsLeast<T(!new)>(less: (T, T) -> bool, a: seq<T>, x: T)
    requires Total(less) && Sorted(less, a) && a != [] && x in multiset(a)
    ensures !less(x, a[0])
  {
  }

  lemma {:induction false} TailIsSorted<T(!new)>(less: (T, T) -> bool, a: seq<T>)
    requires Sorted(less, a) && a != []
    ensures Sorted(less, a[1..])
  {
  }

  // ---- the two orders in use ----

  predicate CharLess(c: char, d: char) { c < d }

  /** Python's order on strings: by code point. */
  predicate TextLess(a: string, b: string) { Lex(CharLess, a, b) }

  /** Python's order on paths, component by component, and on manifest entries. */
  predicate ListLess(a: seq<string>, b: seq<string>) { Lex(TextLess, a, b) }

  lemma {:induction false} TextOrderIsTotal()
    ensures Total(TextLess)
  {
    assert Total(CharLess);
    forall a: string ensures !TextLess(a, a) {
      LexIrreflexive(CharLess, a);
    }
    forall a: string, b: string ensures a == b || TextLess(a, b) || TextLess(b, a) {
      LexConnected(CharLess, a, b);
    }
    forall a: string, b: string, c: string | TextLess(a, b) && TextLess(b, c) ensures TextLess(a, c) {
      LexTransitive(CharLess, a, b, c);
    }
  }

  lemma {:induction false} ListOrderIsTotal()
    ensures Total(ListLess)
  {
    TextOrderIsTotal();
    forall a: seq<string> ensures !ListLess(a, a) {
      LexIrreflexive(TextLess, a);
    }
    forall a: seq<string>, b: seq<string> ensures a == b || ListLess(a, b) || ListLess(b, a) {
      LexConnected(TextLess, a, b);
    }
    forall a: seq<string>, b: seq<string>, c: seq<string> | ListLess(a, b) && ListLess(b, c) ensures ListLess(a, c) {
      LexTransitive(TextLess, a, b, c);
    }
  }
}
