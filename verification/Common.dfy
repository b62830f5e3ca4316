/** Small shared vocabulary: options, the string order Python uses for `<`, and the stable sort behind `sorted`. */
module Common {
  datatype Option<+T> = None | Some(value: T)

  /** Python's `str < str`: lexicographic by code point. */
  predicate StrLess(a: string, b: string) {
    if b == [] then false
    else if a == [] then true
    else if a[0] != b[0] then a[0] < b[0]
    else StrLess(a[1..], b[1..])
  }

  lemma {:induction false} StrLessIrreflexive(a: string)
    ensures !StrLess(a, a)
  {
    if a != [] {
      StrLessIrreflexive(a[1..]);
    }
  }

  lemma {:induction false} StrLessTransitive(a: string, b: string, c: string)
    requires StrLess(a, b) && StrLess(b, c)
    ensures StrLess(a, c)
  {
    if a != [] && a[0] == b[0] == c[0] {
      StrLessTransitive(a[1..], b[1..], c[1..]);
    }
  }

  lemma {:induction false} StrLessTotal(a: string, b: string)
    ensures StrLess(a, b) || a == b || StrLess(b, a)
  {
    if a != [] && b != [] && a[0] == b[0] {
      StrLessTotal(a[1..], b[1..]);
      assert a == [a[0]] + a[1..] && b == [b[0]] + b[1..];
    }
  }

  /** The order is decided where two strings first differ: by the characters there, or by one of them ending there. */
  lemma {:induction false} StrLessExactly(a: string, b: string, k: nat)
    requires k <= |a| && k <= |b| && a[..k] == b[..k]
    requires k < |a| && k < |b| ==> a[k] != b[k]
    ensures StrLess(a, b) <==> k < |b| && (k == |a| || a[k] < b[k])
  {
    if k > 0 {
      assert a[..k][0] == b[..k][0];
      assert a[1..][..k - 1] == a[..k][1..] && b[1..][..k - 1] == b[..k][1..];
      StrLessExactly(a[1..], b[1..], k - 1);
    }
  }

  /** `str.upper()` on the ASCII letters; other characters are kept. */
  function Upper(s: string): (r: string)
    ensures |r| == |s|
  {
    seq(|s|, i requires 0 <= i < |s| => UpperChar(s[i]))
  }

  function UpperChar(c: char): char {
    if 'a' <= c <= 'z' then (c as int - 32) as char else c
  }

  /** Where the first separator stands; the length where there is none. */
  function FirstAt(sep: char, s: string): nat {
    if s == [] || s[0] == sep then 0 else 1 + FirstAt(sep, s[1..])
  }

  lemma {:induction false} PartEndsAtSeparator(sep: char, x: string, u: string)
    requires sep !in x && (u == "" || u[0] == sep)
    ensures FirstAt(sep, x + u) == |x|
  {
    if x == [] {
      assert x + u == u;
    } else {
      assert (x + u)[0] == x[0] && (x + u)[1..] == x[1..] + u;
      PartEndsAtSeparator(sep, x[1..], u);
    }
  }

  /** A text tells its first part, where no part holds the separator. */
  lemma FirstPartTells(sep: char, x: string, u: string, y: string, v: string)
    requires sep !in x && sep !in y && x + u == y + v
    requires u == "" || u[0] == sep
    requires v == "" || v[0] == sep
    ensures x == y && u == v
  {
    PartEndsAtSeparator(sep, x, u);
    PartEndsAtSeparator(sep, y, v);
    assert (x + u)[..|x|] == x && (y + v)[..|y|] == y;
    assert (x + u)[|x|..] == u && (y + v)[|y|..] == v;
  }

  /** The characters `str.strip` removes: those Python counts as white space, with no others in Unicode. */
  predicate IsSpace(c: char) {
    var n := c as int;
    || 9 <= n <= 13
    || 28 <= n <= 32
    || n in {0x85, 0xA0, 0x1680, 0x2028, 0x2029, 0x202F, 0x205F, 0x3000}
    || 0x2000 <= n <= 0x200A
  }

  function StripLeft(s: string): (r: string)
    ensures r != [] ==> !IsSpace(r[0])
    ensures r == [] <==> forall i :: 0 <= i < |s| ==> IsSpace(s[i])
  {
    if s == [] || !IsSpace(s[0]) then s else StripLeft(s[1..])
  }

  function StripRight(s: string): (r: string)
    ensures r != [] ==> !IsSpace(r[|r| - 1])
    ensures r == [] <==> forall i :: 0 <= i < |s| ==> IsSpace(s[i])
  {
    if s == [] || !IsSpace(s[|s| - 1]) then s else StripRight(s[..|s| - 1])
  }

  function Strip(s: string): string {
    StripRight(StripLeft(s))
  }

  lemma {:induction false} StripLeftCuts(s: string) returns (left: string)
    ensures s == left + StripLeft(s) && Blank(left)
  {
    if s == [] || !IsSpace(s[0]) {
      left := [];
    } else {
      left := StripLeftCuts(s[1..]);
      left := [s[0]] + left;
    }
  }

  lemma {:induction false} StripRightCuts(s: string) returns (right: string)
    ensures s == StripRight(s) + right && Blank(right)
  {
    if s == [] || !IsSpace(s[|s| - 1]) {
      right := [];
    } else {
      right := StripRightCuts(s[..|s| - 1]);
      right := right + [s[|s| - 1]];
    }
  }

  /** `strip` cuts white space off both ends, and all of it. */
  lemma StripExactly(s: string) returns (left: string, right: string)
    ensures s == left + Strip(s) + right && Blank(left) && Blank(right)
    ensures var t := Strip(s); t != [] ==> !IsSpace(t[0]) && !IsSpace(t[|t| - 1])
  {
    left := StripLeftCuts(s);
    right := StripRightCuts(StripLeft(s));
    var l, t := StripLeft(s), Strip(s);
    assert left + (t + right) == left + t + right;
    if t != [] {
      assert l == t + right && l[0] == t[0];
    }
  }

  /** A string that `strip` leaves nothing of. */
  predicate Blank(s: string) {
    forall i :: 0 <= i < |s| ==> IsSpace(s[i])
  }

  lemma StripEmptiesExactlyBlanks(s: string)
    ensures Strip(s) == [] <==> Blank(s)
  {
    var l := StripLeft(s);
    if l != [] {
      assert !IsSpace(l[0]);
    }
  }

  /** A total preorder: what `sorted` needs of a comparison to have a meaning. */
  ghost predicate TotalPreorder<T(!new)>(le: (T, T) -> bool) {
    && (forall x, y :: le(x, y) || le(y, x))
    && (forall x, y, z :: le(x, y) && le(y, z) ==> le(x, z))
  }

  ghost predicate SortedBy<T>(s: seq<T>, le: (T, T) -> bool) {
    forall i, j :: 0 <= i < j < |s| ==> le(s[i], s[j])
  }

  /** Python's stable `sorted`, written as an insertion sort: `x` stood before all of `s`. */
  function Sort<T>(s: seq<T>, le: (T, T) -> bool): seq<T> {
    if s == [] then [] else Insert(s[0], Sort(s[1..], le), le)
  }

  function Insert<T>(x: T, s: seq<T>, le: (T, T) -> bool): seq<T> {
    if s == [] || le(x, s[0]) then [x] + s else [s[0]] + Insert(x, s[1..], le)
  }

  lemma {:induction false} InsertKeepsElements<T>(x: T, s: seq<T>, le: (T, T) -> bool)
    ensures multiset(Insert(x, s, le)) == multiset{x} + multiset(s)
  {
    if s != [] && !le(x, s[0]) {
      InsertKeepsElements(x, s[1..], le);
      assert s == [s[0]] + s[1..];
    }
  }

  lemma {:induction false} InsertKeepsOrder<T(!new)>(x: T, s: seq<T>, le: (T, T) -> bool)
    requires TotalPreorder(le) && SortedBy(s, le)
    ensures SortedBy(Insert(x, s, le), le)
  {
    if s != [] && !le(x, s[0]) {
      InsertKeepsOrder(x, s[1..], le);
      InsertKeepsElements(x, s[1..], le);
      var t := Insert(x, s[1..], le);
      forall j | 0 <= j < |t| ensures le(s[0], t[j]) {
        assert t[j] in multiset(t);
      }
    }
  }

  /** `sorted` returns an ordered permutation of its input. */
  lemma {:induction false} SortIsSortedPermutation<T(!new)>(s: seq<T>, le: (T, T) -> bool)
    requires TotalPreorder(le)
    ensures SortedBy(Sort(s, le), le)
    ensures multiset(Sort(s, le)) == multiset(s)
  {
    if s != [] {
      SortIsSortedPermutation(s[1..], le);
      InsertKeepsOrder(s[0], Sort(s[1..], le), le);
      InsertKeepsElements(s[0], Sort(s[1..], le), le);
      assert s == [s[0]] + s[1..];
    }
  }

  lemma RemoveOne<T>(s: seq<T>, i: nat)
    requires i < |s|
    ensures multiset(s) == multiset{s[i]} + multiset(s[..i] + s[i + 1..])
  {
    assert s == s[..i] + ([s[i]] + s[i + 1..]);
  }

  /** Taking the same element out of two permutations leaves permutations. */
  lemma RemoveSame<T>(s: seq<T>, i: nat, t: seq<T>, j: nat)
    requires i < |s| && j < |t| && s[i] == t[j] && multiset(s) == multiset(t)
    ensures multiset(s[..i] + s[i + 1..]) == multiset(t[..j] + t[j + 1..])
  {
    RemoveOne(s, i);
    RemoveOne(t, j);
    var a, b := s[..i] + s[i + 1..], t[..j] + t[j + 1..];
    assert multiset(a) == multiset(s) - multiset{s[i]};
    assert multiset(b) == multiset(t) - multiset{t[j]};
  }

  lemma TailsMatch<T>(s: seq<T>, t: seq<T>)
    requires s != [] && t != [] && s[0] == t[0] && multiset(s) == multiset(t)
    ensures multiset(s[1..]) == multiset(t[1..])
  {
    assert s == [s[0]] + s[1..] && t == [t[0]] + t[1..];
    assert multiset(s[1..]) == multiset(s) - multiset{s[0]};
  }

  lemma Occurs<T>(x: T, s: seq<T>, t: seq<T>) returns (i: nat)
    requires x in s && multiset(s) == multiset(t)
    ensures i < |t| && t[i] == x
  {
    assert x in multiset(t);
    i :| 0 <= i < |t| && t[i] == x;
  }

  ghost predicate Antisymmetric<T(!new)>(le: (T, T) -> bool) {
    forall x, y :: le(x, y) && le(y, x) ==> x == y
  }

  predicate StrLeq(a: string, b: string) {
    !StrLess(b, a)
  }

  lemma StrLeqIsOrder()
    ensures TotalPreorder(StrLeq)
    ensures Antisymmetric(StrLeq)
  {
    forall x: string, y: string ensures StrLeq(x, y) || StrLeq(y, x) {
      if StrLess(x, y) && StrLess(y, x) {
        StrLessTransitive(x, y, x);
        StrLessIrreflexive(x);
      }
    }
    forall x: string, y: string | StrLeq(x, y) && StrLeq(y, x) ensures x == y {
      StrLessTotal(x, y);
    }
    forall x: string, y: string, z: string | StrLeq(x, y) && StrLeq(y, z) ensures StrLeq(x, z) {
      StrLessTotal(x, y);
      StrLessTotal(y, z);
      if StrLess(z, x) {
        if x == y {
          assert false;
        } else {
          StrLessTransitive(z, x, y);
        }
      }
    }
  }

  /** Under an antisymmetric order a multiset can be listed in order in one way only. */
  lemma {:induction false} OneSortedListing<T(!new)>(s: seq<T>, t: seq<T>, le: (T, T) -> bool)
    requires TotalPreorder(le) && Antisymmetric(le)
    requires SortedBy(s, le) && SortedBy(t, le) && multiset(s) == multiset(t)
    ensures s == t
  {
    hide SortedBy, TotalPreorder, Antisymmetric;
    if s == [] {
      assert |multiset(t)| == 0;
    } else {
      SameLeast(s, t, le);
      TailsMatch(s, t);
      TailIsSorted(s, le);
      TailIsSorted(t, le);
      OneSortedListing(s[1..], t[1..], le);
      assert s == [s[0]] + s[1..] && t == [t[0]] + t[1..];
    }
  }

  lemma TailIsSorted<T>(s: seq<T>, le: (T, T) -> bool)
    requires SortedBy(s, le) && s != []
    ensures SortedBy(s[1..], le)
  {
  }

  lemma LeastComesFirst<T(!new)>(s: seq<T>, x: T, le: (T, T) -> bool)
    requires TotalPreorder(le) && SortedBy(s, le) && x in s
    ensures le(s[0], x)
  {
    assert le(x, x);
  }

  lemma SameLeast<T(!new)>(s: seq<T>, t: seq<T>, le: (T, T) -> bool)
    requires TotalPreorder(le) && Antisymmetric(le)
    requires SortedBy(s, le) && SortedBy(t, le) && multiset(s) == multiset(t) && s != []
    ensures t != [] && s[0] == t[0]
  {
    hide SortedBy, TotalPreorder;
    var i := Occurs(s[0], s, t);
    LeastComesFirst(t, t[i], le);
    var j := Occurs(t[0], t, s);
    LeastComesFirst(s, s[j], le);
  }

  /** `list(dict.fromkeys(s))`: first occurrences. */
  function FirstOccurrences<T(==)>(s: seq<T>): seq<T> {
    if s == [] then []
    else
      var n := |s| - 1;
      FirstOccurrences(s[..n]) + if s[n] in s[..n] then [] else [s[n]]
  }

  lemma {:induction false} FirstOccurrencesListOnce<T>(s: seq<T>)
    ensures Distinct(FirstOccurrences(s)) && (forall x :: x in FirstOccurrences(s) <==> x in s)
  {
    if s != [] {
      var n := |s| - 1;
      FirstOccurrencesListOnce(s[..n]);
      assert s == s[..n] + [s[n]];
    }
  }

  /** ... in the order in which they first occur: a longer input only adds at the end. */
  lemma {:induction false} FirstOccurrencesKeepOrder<T>(s: seq<T>, i: nat)
    requires i <= |s|
    ensures FirstOccurrences(s[..i]) <= FirstOccurrences(s)
  {
    if i == |s| {
      assert s[..i] == s;
    } else {
      var n := |s| - 1;
      FirstOccurrencesKeepOrder(s[..n], i);
      assert s[..n][..i] == s[..i];
    }
  }

  function Keep<T>(s: seq<T>, p: T -> bool): (r: seq<T>)
    ensures forall x :: x in r ==> x in s && p(x)
    ensures |r| <= |s|
  {
    if s == [] then [] else if p(s[0]) then [s[0]] + Keep(s[1..], p) else Keep(s[1..], p)
  }

  lemma {:induction false} InsertIsStable<T(!new)>(x: T, s: seq<T>, le: (T, T) -> bool, p: T -> bool)
    requires forall y :: p(x) && p(y) ==> le(x, y)
    ensures Keep(Insert(x, s, le), p) == (if p(x) then [x] else []) + Keep(s, p)
  {
    if s == [] || le(x, s[0]) {
      assert ([x] + s)[1..] == s;
    } else {
      var t := Insert(x, s[1..], le);
      InsertIsStable(x, s[1..], le, p);
      assert ([s[0]] + t)[0] == s[0] && ([s[0]] + t)[1..] == t;
      if p(x) {
        assert !p(s[0]);
      }
    }
  }

  /** `sorted` is stable: members of a class that the order does not separate stay in the order they came in. */
  lemma {:induction false} SortIsStable<T(!new)>(s: seq<T>, le: (T, T) -> bool, p: T -> bool)
    requires forall x, y :: p(x) && p(y) ==> le(x, y)
    ensures Keep(Sort(s, le), p) == Keep(s, p)
  {
    if s != [] {
      SortIsStable(s[1..], le, p);
      InsertIsStable(s[0], Sort(s[1..], le), le, p);
    }
  }

  lemma {:induction false} KeepIsExact<T>(s: seq<T>, p: T -> bool)
    ensures forall x :: x in Keep(s, p) <==> x in s && p(x)
  {
    if s != [] {
      KeepIsExact(s[1..], p);
      assert s == [s[0]] + s[1..];
    }
  }

  ghost predicate Distinct<T>(s: seq<T>) {
    forall i, j :: 0 <= i < j < |s| ==> s[i] != s[j]
  }

  function ToSet<T>(s: seq<T>): set<T> {
    set x | x in s
  }

  /** A sequence without repeats is as long as its set of elements. */
  lemma {:induction false} DistinctCount<T>(s: seq<T>)
    requires Distinct(s)
    ensures |ToSet(s)| == |s|
  {
    if s == [] {
      assert ToSet(s) == {};
    } else {
      var n := |s| - 1;
      DistinctCount(s[..n]);
      assert s == s[..n] + [s[n]];
      assert ToSet(s) == ToSet(s[..n]) + {s[n]};
    }
  }
}
