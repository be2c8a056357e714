// The orders Python sorts by: strings by character, paths by component, pairs by first and then
// second item; and sorting itself.
module Orders {

  // ---- total orders and sorting ----

  ghost predicate TotalOrder<T(!new)>(le: (T, T) -> bool) {
    && (forall x :: le(x, x))
    && (forall x, y :: le(x, y) || le(y, x))
    && (forall x, y :: le(x, y) && le(y, x) ==> x == y)
    && (forall x, y, z :: le(x, y) && le(y, z) ==> le(x, z))
  }

  ghost predicate Sorted<T>(s: seq<T>, le: (T, T) -> bool) {
    forall i, j :: 0 <= i < j < |s| ==> le(s[i], s[j])
  }

  function Insert<T>(x: T, s: seq<T>, le: (T, T) -> bool): seq<T> {
    if s == [] || le(x, s[0]) then [x] + s else [s[0]] + Insert(x, s[1..], le)
  }

  function Sort<T>(s: seq<T>, le: (T, T) -> bool): seq<T> {
    if s == [] then [] else Insert(s[0], Sort(s[1..], le), le)
  }

  lemma {:induction false} InsertItems<T>(x: T, s: seq<T>, le: (T, T) -> bool)
    ensures multiset(Insert(x, s, le)) == multiset(s) + multiset{x}
  {
    if s == [] || le(x, s[0]) {
      assert Insert(x, s, le) == [x] + s;
    } else {
      InsertItems(x, s[1..], le);
      assert s == [s[0]] + s[1..];
    }
  }

  lemma {:induction false} FirstBeforeAll<T(!new)>(first: T, rest: seq<T>, le: (T, T) -> bool)
    requires Sorted(rest, le) && forall x :: x in rest ==> le(first, x)
    ensures Sorted([first] + rest, le)
  {
  }

  lemma {:induction false} InsertSorts<T(!new)>(x: T, s: seq<T>, le: (T, T) -> bool)
    requires TotalOrder(le) && Sorted(s, le)
    ensures Sorted(Insert(x, s, le), le)
  {
    if s == [] || le(x, s[0]) {
      forall y | y in s ensures le(x, y) { assert le(s[0], y); }
      FirstBeforeAll(x, s, le);
    } else {
      var rest := Insert(x, s[1..], le);
      InsertSorts(x, s[1..], le);
      InsertItems(x, s[1..], le);
      forall y | y in rest ensures le(s[0], y) {
        assert y in multiset(rest);
        assert y == x || y in s[1..];
      }
      FirstBeforeAll(s[0], rest, le);
    }
  }

  lemma {:induction false} SortSorts<T(!new)>(s: seq<T>, le: (T, T) -> bool)
    requires TotalOrder(le)
    ensures Sorted(Sort(s, le), le) && multiset(Sort(s, le)) == multiset(s)
  {
    if s == [] {
    } else {
      SortSorts(s[1..], le);
      InsertItems(s[0], Sort(s[1..], le), le);
      InsertSorts(s[0], Sort(s[1..], le), le);
      assert s == [s[0]] + s[1..];
    }
  }

  lemma {:induction false} FirstIsLeast<T(!new)>(s: seq<T>, x: T, le: (T, T) -> bool)
    requires TotalOrder(le) && Sorted(s, le) && x in multiset(s)
    ensures s != [] && le(s[0], x)
  {
    var i :| 0 <= i < |s| && s[i] == x;
  }

  lemma {:induction false} TailItems<T>(s: seq<T>)
    requires s != []
    ensures multiset(s[1..]) == multiset(s) - multiset{s[0]}
  {
    assert s == [s[0]] + s[1..];
  }

  // Sorted sequences with the same items are the same.
  lemma {:induction false} SortedIsUnique<T(!new)>(a: seq<T>, b: seq<T>, le: (T, T) -> bool)
    requires TotalOrder(le) && Sorted(a, le) && Sorted(b, le) && multiset(a) == multiset(b)
    ensures a == b
  {
    assert |a| == |multiset(a)| && |b| == |multiset(b)|;
    if a == [] {
    } else {
      assert a[0] in multiset(a) && b[0] in multiset(b);
      FirstIsLeast(a, b[0], le);
      FirstIsLeast(b, a[0], le);
      TailItems(a);
      TailItems(b);
      SortedIsUnique(a[1..], b[1..], le);
      assert a == [a[0]] + a[1..] && b == [b[0]] + b[1..];
    }
  }

  // Sorting changes nothing exactly if there was nothing to do.
  lemma {:induction false} SortFixes<T(!new)>(s: seq<T>, le: (T, T) -> bool)
    requires TotalOrder(le)
    ensures Sort(s, le) == s <==> Sorted(s, le)
  {
    SortSorts(s, le);
    if Sorted(s, le) { SortedIsUnique(Sort(s, le), s, le); }
  }

  // ---- items and how often they occur ----

  lemma {:induction false} TwoPlaces<T>(s: seq<T>, i: nat, j: nat)
    requires i < j < |s|
    ensures s[i] == s[j] ==> multiset(s)[s[i]] >= 2
  {
    assert s == s[..j] + s[j..];
    assert s[..j][i] == s[i] && s[j..][0] == s[j];
    assert s[i] in multiset(s[..j]) && s[j] in multiset(s[j..]);
  }

  lemma {:induction false} CountsOne<T>(s: seq<T>, x: T)
    requires forall i, j :: 0 <= i < j < |s| ==> s[i] != s[j]
    ensures multiset(s)[x] <= 1
  {
    if s == [] {
    } else {
      CountsOne(s[1..], x);
      assert s == [s[0]] + s[1..];
      if x == s[0] { assert x !in s[1..]; }
    }
  }

  lemma {:induction false} SameItems<T>(x: seq<T>, y: seq<T>)
    requires multiset(x) == multiset(y)
    ensures forall e :: e in x <==> e in y
  {
    forall e ensures e in x <==> e in y {
      assert e in x <==> e in multiset(x);
      assert e in y <==> e in multiset(y);
    }
  }

  // A sequence of distinct items has the items of a set exactly if it has the same members.
  lemma {:induction false} SameMembers<T>(s: seq<T>, items: set<T>)
    ensures multiset(s) == multiset(items) <==>
              (forall x :: x in s <==> x in items) && (forall i, j :: 0 <= i < j < |s| ==> s[i] != s[j])
  {
    if multiset(s) == multiset(items) {
      forall x ensures x in s <==> x in items { assert x in multiset(s) <==> x in multiset(items); }
      forall i, j | 0 <= i < j < |s| ensures s[i] != s[j] {
        TwoPlaces(s, i, j);
        assert multiset(items)[s[i]] <= 1;
      }
    }
    if (forall x :: x in s <==> x in items) && (forall i, j :: 0 <= i < j < |s| ==> s[i] != s[j]) {
      forall x ensures multiset(s)[x] == multiset(items)[x] {
        CountsOne(s, x);
        assert x in multiset(s) <==> x in s;
      }
    }
  }

  // Two lists sort to one list exactly if they have the same items.
  lemma {:induction false} SortedAlike<T(!new)>(a: seq<T>, b: seq<T>, le: (T, T) -> bool)
    requires TotalOrder(le)
    ensures Sort(a, le) == Sort(b, le) <==> multiset(a) == multiset(b)
  {
    SortSorts(a, le);
    SortSorts(b, le);
    if multiset(a) == multiset(b) { SortedIsUnique(Sort(a, le), Sort(b, le), le); }
  }

  lemma {:induction false} SortedDistinct<T>(s: seq<T>, sorted: seq<T>)
    requires (forall i, j :: 0 <= i < j < |s| ==> s[i] != s[j]) && multiset(sorted) == multiset(s)
    ensures forall i, j :: 0 <= i < j < |sorted| ==> sorted[i] != sorted[j]
  {
    forall x ensures multiset(s)[x] <= 1 { CountsOne(s, x); }
    forall i, j | 0 <= i < j < |sorted| ensures sorted[i] != sorted[j] { TwoPlaces(sorted, i, j); }
  }

  // ---- lexicographic order ----

  predicate Lex<T(==)>(a: seq<T>, b: seq<T>, le: (T, T) -> bool) {
    if a == [] then true
    else if b == [] then false
    else if a[0] == b[0] then Lex(a[1..], b[1..], le)
    else le(a[0], b[0])
  }

  lemma {:induction false} LexReflexive<T(!new)>(a: seq<T>, le: (T, T) -> bool)
    ensures Lex(a, a, le)
  {
    if a == [] {
    } else {
      LexReflexive(a[1..], le);
    }
  }

  lemma {:induction false} LexTotal<T(!new)>(a: seq<T>, b: seq<T>, le: (T, T) -> bool)
    requires TotalOrder(le)
    ensures Lex(a, b, le) || Lex(b, a, le)
    ensures Lex(a, b, le) && Lex(b, a, le) ==> a == b
  {
    if a == [] || b == [] || a[0] != b[0] {
    } else {
      LexTotal(a[1..], b[1..], le);
      assert a == [a[0]] + a[1..] && b == [b[0]] + b[1..];
    }
  }

  lemma {:induction false} LexTransitive<T(!new)>(a: seq<T>, b: seq<T>, c: seq<T>, le: (T, T) -> bool)
    requires TotalOrder(le) && Lex(a, b, le) && Lex(b, c, le)
    ensures Lex(a, c, le)
  {
    if a == [] || a[0] != b[0] || b[0] != c[0] {
    } else {
      LexTransitive(a[1..], b[1..], c[1..], le);
    }
  }

  lemma {:induction false} LexIsTotalOrder<T(!new)>(le: (T, T) -> bool)
    requires TotalOrder(le)
    ensures TotalOrder((a, b) => Lex(a, b, le))
  {
    forall a: seq<T> ensures Lex(a, a, le) { LexReflexive(a, le); }
    forall a: seq<T>, b: seq<T>
      ensures Lex(a, b, le) || Lex(b, a, le)
      ensures Lex(a, b, le) && Lex(b, a, le) ==> a == b
    {
      LexTotal(a, b, le);
    }
    forall a: seq<T>, b: seq<T>, c: seq<T> | Lex(a, b, le) && Lex(b, c, le) ensures Lex(a, c, le) {
      LexTransitive(a, b, c, le);
    }
  }

  // ---- strings ----

  predicate CharLe(x: char, y: char) {
    x <= y
  }

  predicate StringLe(a: string, b: string) {
    Lex(a, b, CharLe)
  }

  lemma {:induction false} StringLeIsTotalOrder()
    ensures TotalOrder(StringLe)
  {
    LexIsTotalOrder(CharLe);
    var le := (a: string, b: string) => Lex(a, b, CharLe);
    assert forall a: string, b: string :: StringLe(a, b) == le(a, b);
  }

  // ---- pairs ----

  predicate PairLe(a: (string, string), b: (string, string)) {
    if a.0 == b.0 then StringLe(a.1, b.1) else StringLe(a.0, b.0)
  }

  lemma {:induction false} PairLeIsTotalOrder()
    ensures TotalOrder(PairLe)
  {
    StringLeIsTotalOrder();
    assert forall a: string, b: string :: StringLe(a, b) || StringLe(b, a);
    assert forall a: string, b: string :: StringLe(a, b) && StringLe(b, a) ==> a == b;
    forall x: (string, string), y: (string, string), z: (string, string) | PairLe(x, y) && PairLe(y, z)
      ensures PairLe(x, z)
    {
      assert StringLe(x.0, y.0) && StringLe(y.0, z.0);
    }
  }

  // ---- paths ----

  function Split(path: string): (parts: seq<string>)
    ensures |parts| > 0
  {
    if path == "" then [""]
    else
      var rest := Split(path[1..]);
      if path[0] == '/' then [""] + rest else [[path[0]] + rest[0]] + rest[1..]
  }

  // Python compares paths as tuples of their components.
  predicate PathLe(p: string, q: string) {
    Lex(Split(p), Split(q), StringLe)
  }

  // The slash before every other character.
  predicate SlashFirst(x: char, y: char) {
    x == '/' || (y != '/' && x <= y)
  }

  lemma {:induction false} SlashFirstIsTotalOrder()
    ensures TotalOrder(SlashFirst)
  {
  }

  lemma {:induction false} SplitFirst(p: string)
    requires p != ""
    ensures p[0] == '/' ==> Split(p)[0] == "" && Split(p)[1..] == Split(p[1..])
    ensures p[0] != '/' ==> Split(p)[0] == [p[0]] + Split(p[1..])[0] && Split(p)[1..] == Split(p[1..])[1..]
  {
  }

  lemma {:induction false} PathLeStep(p: string, q: string)
    ensures PathLe(p, q) <==> if Split(p)[0] == Split(q)[0] then Lex(Split(p)[1..], Split(q)[1..], StringLe)
                              else StringLe(Split(p)[0], Split(q)[0])
  {
  }

  // Comparing components is comparing characters with the slash before all others.
  lemma {:induction false} PathLeByCharacter(p: string, q: string)
    ensures PathLe(p, q) <==> Lex(p, q, SlashFirst)
  {
    PathLeStep(p, q);
    if p != "" { SplitFirst(p); }
    if q != "" { SplitFirst(q); }
    if p == "" || q == "" {
      assert Split("")[1..] == [];
    } else {
      PathLeByCharacter(p[1..], q[1..]);
      PathLeStep(p[1..], q[1..]);
      if p[0] == q[0] != '/' {
        assert Split(p)[0][1..] == Split(p[1..])[0] && Split(q)[0][1..] == Split(q[1..])[0];
        assert StringLe(Split(p)[0], Split(q)[0]) == StringLe(Split(p[1..])[0], Split(q[1..])[0]);
      }
    }
  }

  lemma {:induction false} PathLeIsTotalOrder()
    ensures TotalOrder(PathLe)
  {
    SlashFirstIsTotalOrder();
    LexIsTotalOrder(SlashFirst);
    var le := (a: string, b: string) => Lex(a, b, SlashFirst);
    forall p, q ensures PathLe(p, q) == le(p, q) { PathLeByCharacter(p, q); }
  }

  // Where p first differs from q, p has a slash and q a character that sorts before the slash.
  predicate Clash(p: string, q: string) {
    exists n | 0 <= n < |p| && n < |q| :: p[..n] == q[..n] && p[n] == '/' && q[n] < '/'
  }

  lemma {:induction false} ClashFromFirst(p: string, q: string)
    requires p != "" && q != "" && p[0] == q[0]
    ensures Clash(p, q) <==> Clash(p[1..], q[1..])
  {
    if Clash(p, q) {
      var n :| 0 <= n < |p| && n < |q| && p[..n] == q[..n] && p[n] == '/' && q[n] < '/';
      assert n > 0;
      assert p[1..][..n - 1] == p[..n][1..] && q[1..][..n - 1] == q[..n][1..];
      assert p[1..][n - 1] == '/' && q[1..][n - 1] < '/';
    }
    if Clash(p[1..], q[1..]) {
      var n :| 0 <= n < |p[1..]| && n < |q[1..]| && p[1..][..n] == q[1..][..n] && p[1..][n] == '/' && q[1..][n] < '/';
      assert p[..n + 1] == [p[0]] + p[1..][..n] && q[..n + 1] == [q[0]] + q[1..][..n];
    }
  }

  // The path order and the string order disagree on two paths exactly if they clash.
  lemma {:induction false} OrdersDisagree(p: string, q: string)
    ensures PathLe(p, q) && !StringLe(p, q) <==> Clash(p, q)
  {
    PathLeByCharacter(p, q);
    ClashByCharacter(p, q);
  }

  lemma {:induction false} ClashByCharacter(p: string, q: string)
    ensures Lex(p, q, SlashFirst) && !StringLe(p, q) <==> Clash(p, q)
  {
    if p == "" || q == "" {
    } else {
      if p[0] == q[0] {
        ClashFromFirst(p, q);
        ClashByCharacter(p[1..], q[1..]);
      } else {
        if p[0] == '/' && q[0] < '/' { assert p[..0] == q[..0]; }
      }
    }
  }
}
