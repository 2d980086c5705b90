/** Python's `sorted`: a stable sort by a key, together with the order that it uses on strings. */
module Sorting {

  ghost predicate TotalPreorder<T(!new)>(le: (T, T) -> bool) {
    && (forall x, y :: le(x, y) || le(y, x))
    && (forall x, y, z :: le(x, y) && le(y, z) ==> le(x, z))
  }

  ghost predicate TotalOrder<T(!new)>(le: (T, T) -> bool) {
    && TotalPreorder(le)
    && (forall x, y :: le(x, y) && le(y, x) ==> x == y)
  }

  ghost predicate SortedBy<T>(le: (T, T) -> bool, s: seq<T>) {
    forall i, j :: 0 <= i < j < |s| ==> le(s[i], s[j])
  }

  function Insert<T>(le: (T, T) -> bool, x: T, s: seq<T>): seq<T> {
    if s == [] || le(x, s[0]) then [x] + s else [s[0]] + Insert(le, x, s[1..])
  }

  function Sort<T>(le: (T, T) -> bool, s: seq<T>): seq<T> {
    if s == [] then [] else Insert(le, s[0], Sort(le, s[1..]))
  }

  lemma {:induction false} InsertKeeps<T(!new)>(le: (T, T) -> bool, x: T, s: seq<T>)
    ensures multiset(Insert(le, x, s)) == multiset(s) + multiset{x}
    ensures TotalPreorder(le) && SortedBy(le, s) ==> SortedBy(le, Insert(le, x, s))
  {
    if s == [] || le(x, s[0]) {
    } else {
      InsertKeeps(le, x, s[1..]);
      assert s == [s[0]] + s[1..];
      var t := Insert(le, x, s[1..]);
      if TotalPreorder(le) && SortedBy(le, s) {
        forall j | 0 <= j < |t| ensures le(s[0], t[j]) {
          assert t[j] in multiset(t);
          assert t[j] == x || t[j] in s[1..];
        }
      }
    }
  }

  /** The sort returns a permutation of its input, in order. */
  lemma {:induction false} SortSorts<T(!new)>(le: (T, T) -> bool, s: seq<T>)
    ensures multiset(Sort(le, s)) == multiset(s)
    ensures |Sort(le, s)| == |s|
    ensures TotalPreorder(le) ==> SortedBy(le, Sort(le, s))
  {
    if s == [] {
    } else {
      SortSorts(le, s[1..]);
      InsertKeeps(le, s[0], Sort(le, s[1..]));
      assert s == [s[0]] + s[1..];
    }
    assert |multiset(Sort(le, s))| == |Sort(le, s)|;
    assert |multiset(s)| == |s|;
  }

  lemma {:induction false} SortedIsUnique<T(!new)>(le: (T, T) -> bool, s: seq<T>, t: seq<T>)
    requires TotalOrder(le) && SortedBy(le, s) && SortedBy(le, t)
    requires multiset(s) == multiset(t)
    ensures s == t
  {
    assert |multiset(s)| == |s| && |multiset(t)| == |t|;
    if s == [] {
    } else {
      assert s[0] in multiset(t) && t[0] in multiset(s);
      assert le(s[0], s[0]) && le(t[0], t[0]);
      assert le(s[0], t[0]) && le(t[0], s[0]);
      assert s == [s[0]] + s[1..] && t == [t[0]] + t[1..];
      assert multiset(s[1..]) == multiset(s) - multiset{s[0]};
      assert multiset(t[1..]) == multiset(t) - multiset{t[0]};
      SortedIsUnique(le, s[1..], t[1..]);
    }
  }

  /** The elements that rank with x, in order. */
  function Ranked<T>(le: (T, T) -> bool, x: T, s: seq<T>): seq<T> {
    if s == [] then []
    else (if le(x, s[0]) && le(s[0], x) then [s[0]] else []) + Ranked(le, x, s[1..])
  }

  lemma {:induction false} InsertIsStable<T(!new)>(le: (T, T) -> bool, x: T, y: T, s: seq<T>)
    requires TotalPreorder(le) && SortedBy(le, s)
    ensures Ranked(le, x, Insert(le, y, s)) == Ranked(le, x, [y] + s)
  {
    assert ([y] + s)[1..] == s;
    if s == [] || le(y, s[0]) {
    } else {
      InsertIsStable(le, x, y, s[1..]);
      assert ([y] + s[1..])[1..] == s[1..];
      var t := [s[0]] + Insert(le, y, s[1..]);
      assert t[1..] == Insert(le, y, s[1..]);
      assert le(y, x) ==> !le(x, s[0]);
    }
  }

  /** The sort is stable: elements that rank equally keep their order. */
  lemma {:induction false} SortIsStable<T(!new)>(le: (T, T) -> bool, x: T, s: seq<T>)
    requires TotalPreorder(le)
    ensures Ranked(le, x, Sort(le, s)) == Ranked(le, x, s)
  {
    if s == [] {
    } else {
      SortIsStable(le, x, s[1..]);
      SortSorts(le, s[1..]);
      InsertIsStable(le, x, s[0], Sort(le, s[1..]));
      assert ([s[0]] + Sort(le, s[1..]))[1..] == Sort(le, s[1..]);
    }
  }

  /** Under a total order the sort forgets the order of its input. */
  lemma SortIgnoresOrder<T(!new)>(le: (T, T) -> bool, s: seq<T>, t: seq<T>)
    requires TotalOrder(le) && multiset(s) == multiset(t)
    ensures Sort(le, s) == Sort(le, t)
  {
    SortSorts(le, s);
    SortSorts(le, t);
    SortedIsUnique(le, Sort(le, s), Sort(le, t));
  }

  lemma RemoveAt<T>(s: seq<T>, i: nat)
    requires i < |s|
    ensures multiset(s[..i] + s[i + 1..]) + multiset{s[i]} == multiset(s)
    ensures multiset(s[..i] + s[i + 1..]) == multiset(s) - multiset{s[i]}
  {
    assert s == s[..i] + [s[i]] + s[i + 1..];
  }

  /** The last element of one permutation can be taken out of the other. */
  lemma TakeLast<T>(s: seq<T>, t: seq<T>) returns (i: nat)
    requires s != [] && multiset(s) == multiset(t)
    ensures i < |t| && t[i] == s[|s| - 1]
    ensures multiset(s[..|s| - 1]) == multiset(t[..i] + t[i + 1..])
  {
    var n := |s| - 1;
    assert s[n] in multiset(t);
    i :| 0 <= i < |t| && t[i] == s[n];
    RemoveAt(t, i);
    RemoveAt(s, n);
    assert s[..n] + s[n + 1..] == s[..n];
  }

  // ----- strings, compared code point by code point -----

  predicate StringLe(a: string, b: string) {
    a == "" || (b != "" && (a[0] < b[0] || (a[0] == b[0] && StringLe(a[1..], b[1..]))))
  }

  /** The first string is a prefix of the second, or smaller at the first place where they differ. */
  ghost predicate Lexicographic(a: string, b: string) {
    a <= b || exists i :: SmallerAt(a, b, i)
  }

  ghost predicate SmallerAt(a: string, b: string, i: nat) {
    i < |a| && i < |b| && a[i] < b[i] && a[..i] == b[..i]
  }

  lemma {:induction false} StringLeIsLexicographic(a: string, b: string)
    ensures StringLe(a, b) <==> Lexicographic(a, b)
  {
    if a != "" && b != "" && a[0] == b[0] {
      StringLeIsLexicographic(a[1..], b[1..]);
      if i: nat :| SmallerAt(a[1..], b[1..], i) {
        assert a[..i + 1] == [a[0]] + a[1..][..i] && b[..i + 1] == [b[0]] + b[1..][..i];
        assert SmallerAt(a, b, i + 1);
      }
      if i: nat :| SmallerAt(a, b, i) {
        assert i > 0;
        assert a[1..][..i - 1] == a[..i][1..] && b[1..][..i - 1] == b[..i][1..];
        assert SmallerAt(a[1..], b[1..], i - 1);
      }
      assert a <= b <==> a[1..] <= b[1..] by {
        assert a == [a[0]] + a[1..] && b == [b[0]] + b[1..];
      }
    } else if a != "" && b != "" {
      if a[0] < b[0] {
        assert SmallerAt(a, b, 0);
      }
      if i: nat :| SmallerAt(a, b, i) {
        assert i > 0 ==> a[..i][0] == b[..i][0];
      }
    }
  }

  function StringOrder(): (string, string) -> bool {
    (a, b) => StringLe(a, b)
  }

  lemma {:induction false} StringLeTransitive(a: string, b: string, c: string)
    requires StringLe(a, b) && StringLe(b, c)
    ensures StringLe(a, c)
  {
    if a != "" && a[0] == b[0] && b[0] == c[0] {
      StringLeTransitive(a[1..], b[1..], c[1..]);
    }
  }

  lemma {:induction false} StringLeTotal(a: string, b: string)
    ensures StringLe(a, b) || StringLe(b, a)
    ensures StringLe(a, b) && StringLe(b, a) ==> a == b
  {
    if a != "" && b != "" && a[0] == b[0] {
      StringLeTotal(a[1..], b[1..]);
      assert a == [a[0]] + a[1..] && b == [b[0]] + b[1..];
    }
  }

  lemma StringOrderIsTotal()
    ensures TotalOrder(StringOrder())
  {
    var le := StringOrder();
    forall a, b ensures le(a, b) || le(b, a) ensures le(a, b) && le(b, a) ==> a == b {
      StringLeTotal(a, b);
    }
    forall a, b, c | le(a, b) && le(b, c) ensures le(a, c) {
      StringLeTransitive(a, b, c);
    }
  }

  // ----- `sorted(set(...))` -----

  function InsertUnique(x: string, s: seq<string>): seq<string> {
    if s == [] then [x]
    else if x == s[0] then s
    else if StringLe(x, s[0]) then [x] + s
    else [s[0]] + InsertUnique(x, s[1..])
  }

  function SortedSet(s: seq<string>): seq<string> {
    if s == [] then [] else InsertUnique(s[0], SortedSet(s[1..]))
  }

  ghost predicate StrictlyAscending(s: seq<string>) {
    forall i, j :: 0 <= i < j < |s| ==> StringLe(s[i], s[j]) && s[i] != s[j]
  }

  lemma {:induction false} InsertUniqueFacts(x: string, s: seq<string>)
    requires StrictlyAscending(s)
    ensures StrictlyAscending(InsertUnique(x, s))
    ensures forall y :: y in InsertUnique(x, s) <==> y == x || y in s
  {
    if s == [] || x == s[0] {
    } else if StringLe(x, s[0]) {
      forall j | 0 <= j < |s| ensures StringLe(x, s[j]) && x != s[j] {
        if j > 0 {
          StringLeTransitive(x, s[0], s[j]);
          StringLeTotal(s[0], s[j]);
        }
      }
    } else {
      InsertUniqueFacts(x, s[1..]);
      StringLeTotal(x, s[0]);
      assert s == [s[0]] + s[1..];
      var t := InsertUnique(x, s[1..]);
      forall j | 0 <= j < |t| ensures StringLe(s[0], t[j]) && s[0] != t[j] {
        assert t[j] in t;
        assert t[j] == x || t[j] in s[1..];
      }
    }
  }

  lemma {:induction false} SortedSetFacts(s: seq<string>)
    ensures StrictlyAscending(SortedSet(s))
    ensures forall x :: x in SortedSet(s) <==> x in s
  {
    if s == [] {
    } else {
      SortedSetFacts(s[1..]);
      InsertUniqueFacts(s[0], SortedSet(s[1..]));
      assert s == [s[0]] + s[1..];
    }
  }

  /** The result depends on the set of elements only. */
  lemma {:induction false} AscendingIsUnique(s: seq<string>, t: seq<string>)
    requires StrictlyAscending(s) && StrictlyAscending(t)
    requires forall x :: x in s <==> x in t
    ensures s == t
  {
    assert (t != [] ==> t[0] in t) && (s != [] ==> s[0] in s);
    if s == [] {
    } else {
      assert s[0] in t && (t != [] ==> t[0] in s);
      StringLeTotal(s[0], t[0]);
      forall x ensures x in s[1..] <==> x in t[1..] {
        assert s == [s[0]] + s[1..] && t == [t[0]] + t[1..];
        assert x in s <==> x in t;
        assert s[0] !in s[1..] && t[0] !in t[1..];
      }
      AscendingIsUnique(s[1..], t[1..]);
    }
  }
}
