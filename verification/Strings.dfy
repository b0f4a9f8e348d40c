/** Byte strings in Go's order, and the in-place insertion sort the fleet code uses
    instead of the standard sort package. A `char` stands for one byte. */
module Strings {

  datatype Option<+T> = None | Some(value: T)

  /** Go's `a < b` on strings: lexicographic. */
  predicate Less(a: string, b: string) {
    if b == [] then false
    else if a == [] then true
    else if a[0] != b[0] then a[0] < b[0]
    else Less(a[1..], b[1..])
  }

  predicate Sorted(s: seq<string>) {
    forall i, j :: 0 <= i < j < |s| ==> !Less(s[j], s[i])
  }

  predicate StrictlySorted(s: seq<string>) {
    forall i, j :: 0 <= i < j < |s| ==> Less(s[i], s[j])
  }

  predicate Distinct<T(==)>(s: seq<T>) {
    forall i, j :: 0 <= i < j < |s| ==> s[i] != s[j]
  }

  lemma {:induction false} LessIrreflexive(a: string)
    ensures !Less(a, a)
  {
    if a != [] { LessIrreflexive(a[1..]); }
  }

  lemma {:induction false} LessTransitive(a: string, b: string, c: string)
    requires Less(a, b) && Less(b, c)
    ensures Less(a, c)
  {
    if a != [] && a[0] == b[0] == c[0] {
      LessTransitive(a[1..], b[1..], c[1..]);
    }
  }

  /** Not-greater composes with less, so `Sorted` needs only neighbours. */
  lemma NotLessTransitive(a: string, b: string, c: string)
    requires !Less(b, a) && !Less(c, b)
    ensures !Less(c, a)
  {
    Trichotomy(a, b);
    Trichotomy(b, c);
    if Less(c, a) {
      if a != b { LessTransitive(c, a, b); }
    }
  }

  lemma {:induction false} Trichotomy(a: string, b: string)
    ensures Less(a, b) || a == b || Less(b, a)
    ensures !(Less(a, b) && Less(b, a))
    ensures a == b ==> !Less(a, b)
  {
    if a != [] && b != [] && a[0] == b[0] {
      Trichotomy(a[1..], b[1..]);
      assert a == [a[0]] + a[1..] && b == [b[0]] + b[1..];
    }
  }

  /** A set of strings has exactly one strictly sorted listing, so whatever order a
      map was iterated in, sorting its keys gives the same list. */
  lemma {:induction false} ListingUnique(s: seq<string>, t: seq<string>)
    requires StrictlySorted(s) && StrictlySorted(t)
    requires forall x :: x in s <==> x in t
    ensures s == t
  {
    if t != [] { assert t[0] in s; }
    if s != [] {
      assert s[0] in t;
      var i :| 0 <= i < |t| && t[i] == s[0];
      assert t[0] in s;
      var j :| 0 <= j < |s| && s[j] == t[0];
      Trichotomy(s[0], t[0]);
      assert s[0] == t[0];
      forall x
        ensures x in s[1..] <==> x in t[1..]
      {
        LessIrreflexive(s[0]);
        assert x in s <==> x == s[0] || x in s[1..];
        assert x in t <==> x == t[0] || x in t[1..];
        assert s[0] !in s[1..] && t[0] !in t[1..];
      }
      ListingUnique(s[1..], t[1..]);
      assert s == [s[0]] + s[1..] && t == [t[0]] + t[1..];
    }
  }

  lemma DistinctSortedIsStrict(s: seq<string>)
    requires Sorted(s) && Distinct(s)
    ensures StrictlySorted(s)
  {
    forall i, j | 0 <= i < j < |s|
      ensures Less(s[i], s[j])
    {
      Trichotomy(s[i], s[j]);
    }
  }

  lemma {:induction false} DistinctByMultiset<T>(s: seq<T>)
    ensures Distinct(s) <==> forall x :: multiset(s)[x] <= 1
  {
    if s != [] {
      var n := |s| - 1;
      var t := s[..n];
      assert s == t + [s[n]];
      DistinctByMultiset(t);
      assert s[n] in t <==> s[n] in multiset(t);
      assert multiset(s)[s[n]] == multiset(t)[s[n]] + 1;
      assert forall x :: multiset(t)[x] <= multiset(s)[x];
      assert Distinct(s) <==> Distinct(t) && s[n] !in t;
    }
  }

  /** The insertion sort. */
  method SortStrings(a: array<string>)
    modifies a
    ensures Sorted(a[..])
    ensures multiset(a[..]) == old(multiset(a[..]))
  {
    if a.Length == 0 { return; }
    var i := 1;
    while i < a.Length
      invariant 1 <= i <= a.Length
      invariant Sorted(a[..i])
      invariant multiset(a[..]) == old(multiset(a[..]))
    {
      SiftDown(a, i);
      i := i + 1;
    }
    assert a[..i] == a[..];
  }

  /** Its inner loop: swaps neighbours while they are out of order. */
  method SiftDown(a: array<string>, i: nat)
    requires i < a.Length && Sorted(a[..i])
    modifies a
    ensures Sorted(a[..i+1])
    ensures multiset(a[..]) == old(multiset(a[..]))
  {
    var j := i;
    assert OrderedExcept(a[..], i, i) by {
      assert forall k :: 0 <= k < i ==> a[..][k] == a[..i][k];
    }
    while j > 0 && Less(a[j], a[j-1])
      invariant 0 <= j <= i
      invariant multiset(a[..]) == old(multiset(a[..]))
      invariant OrderedExcept(a[..], i, j)
    {
      ghost var s := a[..];
      SwapStep(s, i, j);
      SwapMultiset(s, j);
      a[j-1], a[j] := a[j], a[j-1];
      assert a[..] == s[j-1 := s[j]][j := s[j-1]];
      j := j - 1;
    }
    SettleStep(a[..], i, j);
    assert a[..][..i+1] == a[..i+1];
  }

  lemma SwapMultiset<T>(s: seq<T>, j: nat)
    requires 0 < j < |s|
    ensures multiset(s[j-1 := s[j]][j := s[j-1]]) == multiset(s)
  {
  }

  /** Where the moving element sits, everything else up to `i` stays in order. */
  ghost predicate OrderedExcept(s: seq<string>, i: nat, j: nat) {
    i < |s| && forall p, q :: 0 <= p < q <= i && q != j ==> !Less(s[q], s[p])
  }

  lemma SwapStep(s: seq<string>, i: nat, j: nat)
    requires 0 < j <= i < |s| && OrderedExcept(s, i, j) && Less(s[j], s[j-1])
    ensures OrderedExcept(s[j-1 := s[j]][j := s[j-1]], i, j - 1)
  {
    var t := s[j-1 := s[j]][j := s[j-1]];
    Trichotomy(s[j], s[j-1]);
    forall p, q | 0 <= p < q <= i && q != j - 1
      ensures !Less(t[q], t[p])
    {
      if q == j && p < j - 1 { assert !Less(s[j-1], s[p]); }
    }
  }

  lemma SettleStep(s: seq<string>, i: nat, j: nat)
    requires j <= i < |s| && OrderedExcept(s, i, j) && (j > 0 ==> !Less(s[j], s[j-1]))
    ensures Sorted(s[..i+1])
  {
    forall p, q | 0 <= p < q < i + 1
      ensures !Less(s[q], s[p])
    {
      if q == j && p < j - 1 { NotLessTransitive(s[p], s[j-1], s[j]); }
    }
  }

  /** Sorts a slice that the caller owns; distinct strings come out strictly sorted. */
  method SortedCopy(s: seq<string>) returns (t: seq<string>)
    ensures Sorted(t) && multiset(t) == multiset(s) && |t| == |s|
    ensures forall x :: x in t <==> x in s
    ensures Distinct(s) ==> StrictlySorted(t)
  {
    var a := new string[|s|](i requires 0 <= i < |s| => s[i]);
    assert a[..] == s;
    SortStrings(a);
    t := a[..];
    assert |multiset(t)| == |t| && |multiset(s)| == |s|;
    forall x
      ensures x in t <==> x in s
    {
      assert x in t <==> x in multiset(t);
      assert x in s <==> x in multiset(s);
    }
    if Distinct(s) {
      DistinctByMultiset(s);
      DistinctByMultiset(t);
      DistinctSortedIsStrict(t);
    }
  }

  /** `order` is one of the orders in which ranging over `m` may visit its keys. */
  ghost predicate ListsKeys<V>(order: seq<string>, m: map<string, V>) {
    Distinct(order) && forall k :: k in order <==> k in m
  }

  /** Lists a finite set in an arbitrary order, as ranging over a Go map does. */
  method AnyOrder<K>(s: set<K>) returns (out: seq<K>)
    ensures Distinct(out)
    ensures forall x :: x in out <==> x in s
  {
    out := [];
    var todo := s;
    while todo != {}
      invariant Distinct(out)
      invariant todo <= s
      invariant forall x :: x in out <==> x in s && x !in todo
      decreases todo
    {
      var k :| k in todo;
      out := out + [k];
      todo := todo - {k};
    }
  }

  /** The pieces one after another. */
  function Flat(xs: seq<string>): string {
    if xs == [] then "" else Flat(xs[..|xs| - 1]) + xs[|xs| - 1]
  }

  lemma Reassociate<T>(x: seq<T>, y: seq<T>, z: seq<T>)
    ensures (x + y) + z == x + (y + z)
  {
  }

  // ----- lines

  /** Index of the first occurrence of `c`, or the length when there is none. */
  function IndexOf(s: string, c: char): (i: nat)
    ensures i <= |s| && c !in s[..i] && (i < |s| ==> s[i] == c)
  {
    if s == [] || s[0] == c then 0 else
      var j := IndexOf(s[1..], c);
      assert s[..j + 1] == [s[0]] + s[1..][..j];
      j + 1
  }

  /** The tokens of a line scanner: a final line needs no newline, a final newline adds no line. */
  function ScanLines(t: string): seq<string>
    decreases |t|
  {
    if t == [] then [] else
      var i := IndexOf(t, '\n');
      if i == |t| then [t] else [t[..i]] + ScanLines(t[i + 1..])
  }

  predicate Complete(t: string) {
    t == [] || t[|t| - 1] == '\n'
  }

  lemma IndexOfIs(s: string, c: char, i: nat)
    requires i <= |s| && c !in s[..i] && (i < |s| ==> s[i] == c)
    ensures IndexOf(s, c) == i
  {
    var j := IndexOf(s, c);
    assert forall x :: 0 <= x < i ==> s[..i][x] == s[x];
    assert forall x :: 0 <= x < j ==> s[..j][x] == s[x];
  }

  /** Text that ends with a newline can be scanned apart from what follows. */
  lemma {:induction false} ScanLinesConcat(a: string, b: string)
    requires Complete(a)
    ensures ScanLines(a + b) == ScanLines(a) + ScanLines(b)
    decreases |a|
  {
    if a == [] {
      assert a + b == b;
    } else {
      var i := IndexOf(a, '\n');
      assert forall x :: 0 <= x < i ==> a[..i][x] == a[x];
      assert (a + b)[..i] == a[..i];
      IndexOfIs(a + b, '\n', i);
      assert (a + b)[i + 1..] == a[i + 1..] + b;
      ScanLinesConcat(a[i + 1..], b);
    }
  }

  lemma ScanOneLine(line: string)
    requires '\n' !in line
    ensures ScanLines(line + "\n") == [line]
  {
    var t := line + "\n";
    assert t[..|line|] == line;
    IndexOfIs(t, '\n', |line|);
    assert t[|line| + 1..] == [];
  }

  // ----- white space

  predicate AsciiSpace(c: char) { c in {'\t', '\n', '\U{b}', '\U{c}', '\r', ' '} }

  /** U+0085 and U+00A0 in UTF-8. */
  predicate TwoByteSpace(a: char, b: char) { a == '\U{c2}' && b in {'\U{85}', '\U{a0}'} }

  /** U+1680, U+2000-200A, U+2028, U+2029, U+202F, U+205F and U+3000 in UTF-8. */
  predicate ThreeByteSpace(a: char, b: char, c: char) {
    || (a == '\U{e1}' && b == '\U{9a}' && c == '\U{80}')
    || (a == '\U{e2}' && b == '\U{80}' && ('\U{80}' <= c <= '\U{8a}' || c in {'\U{a8}', '\U{a9}', '\U{af}'}))
    || (a == '\U{e2}' && b == '\U{81}' && c == '\U{9f}')
    || (a == '\U{e3}' && b == '\U{80}' && c == '\U{80}')
  }

  /** Length of the white-space rune that `s` starts with, 0 when it starts with none. */
  function LeadingSpace(s: string): (n: nat)
    ensures n <= |s|
  {
    if |s| >= 1 && AsciiSpace(s[0]) then 1
    else if |s| >= 2 && TwoByteSpace(s[0], s[1]) then 2
    else if |s| >= 3 && ThreeByteSpace(s[0], s[1], s[2]) then 3
    else 0
  }

  /** Length of the white-space rune that `s` ends with, 0 when it ends with none. */
  function TrailingSpace(s: string): (n: nat)
    ensures n <= |s|
  {
    var k := |s|;
    if k >= 1 && AsciiSpace(s[k-1]) then 1
    else if k >= 2 && TwoByteSpace(s[k-2], s[k-1]) then 2
    else if k >= 3 && ThreeByteSpace(s[k-3], s[k-2], s[k-1]) then 3
    else 0
  }

  function TrimStart(s: string): string
    decreases |s|
  {
    var n := LeadingSpace(s);
    if n == 0 then s else TrimStart(s[n..])
  }

  function TrimEnd(s: string): string
    decreases |s|
  {
    var n := TrailingSpace(s);
    if n == 0 then s else TrimEnd(s[..|s| - n])
  }

  /** strings.TrimSpace. */
  function TrimSpace(s: string): string { TrimEnd(TrimStart(s)) }
}

/** A stable insertion sort by any comparison, standing for Go's sort.Slice and
    sort.SliceStable. */
module Sorting {

  /** What Go asks of a less function. */
  ghost predicate WeakOrder<T(!new)>(less: (T, T) -> bool) {
    && (forall a, b :: less(a, b) ==> !less(b, a))
    && (forall a, b, c :: !less(b, a) && !less(c, b) ==> !less(c, a))
  }

  ghost predicate Ordered<T>(less: (T, T) -> bool, s: seq<T>) {
    forall i, j :: 0 <= i < j < |s| ==> !less(s[j], s[i])
  }

  function Insert<T>(less: (T, T) -> bool, x: T, s: seq<T>): seq<T> {
    if s == [] then [x]
    else if less(x, s[0]) then [x] + s
    else [s[0]] + Insert(less, x, s[1..])
  }

  function SortBy<T>(less: (T, T) -> bool, s: seq<T>): seq<T> {
    if s == [] then [] else Insert(less, s[|s| - 1], SortBy(less, s[..|s| - 1]))
  }

  lemma {:induction false} InsertMembers<T>(less: (T, T) -> bool, x: T, s: seq<T>)
    ensures multiset(Insert(less, x, s)) == multiset(s) + multiset{x}
    ensures forall y :: y in Insert(less, x, s) <==> y == x || y in s
  {
    if s != [] {
      assert s == [s[0]] + s[1..];
      InsertMembers(less, x, s[1..]);
    }
  }

  lemma {:induction false} InsertOrdered<T(!new)>(less: (T, T) -> bool, x: T, s: seq<T>)
    requires WeakOrder(less) && Ordered(less, s)
    ensures Ordered(less, Insert(less, x, s))
  {
    if s != [] && !less(x, s[0]) {
      InsertOrdered(less, x, s[1..]);
      InsertMembers(less, x, s[1..]);
      var u := Insert(less, x, s[1..]);
      forall k | 0 <= k < |u|
        ensures !less(u[k], s[0])
      {
        assert u[k] in u;
        if u[k] in s[1..] {
          var m :| 0 <= m < |s| - 1 && s[1..][m] == u[k];
          assert s[m + 1] == u[k];
        }
      }
    } else if s != [] {
      var t := Insert(less, x, s);
      forall i, j | 0 <= i < j < |t|
        ensures !less(t[j], t[i])
      {
        if i == 0 && j > 1 { assert !less(s[0], x) && !less(s[j - 1], s[0]); }
      }
    }
  }

  lemma {:induction false} SortOrdered<T(!new)>(less: (T, T) -> bool, s: seq<T>)
    requires WeakOrder(less)
    ensures Ordered(less, SortBy(less, s))
  {
    if s != [] {
      SortOrdered(less, s[..|s| - 1]);
      InsertOrdered(less, s[|s| - 1], SortBy(less, s[..|s| - 1]));
    }
  }

  lemma {:induction false} SortPermutes<T>(less: (T, T) -> bool, s: seq<T>)
    ensures multiset(SortBy(less, s)) == multiset(s)
  {
    if s != [] {
      var n := |s| - 1;
      SortPermutes(less, s[..n]);
      InsertMembers(less, s[n], SortBy(less, s[..n]));
      assert s == s[..n] + [s[n]];
    }
  }

  /** An ordered list is left as it is. */
  lemma {:induction false} InsertLast<T>(less: (T, T) -> bool, x: T, s: seq<T>)
    requires forall i :: 0 <= i < |s| ==> !less(x, s[i])
    ensures Insert(less, x, s) == s + [x]
  {
    if s != [] {
      InsertLast(less, x, s[1..]);
      assert [s[0]] + (s[1..] + [x]) == s + [x];
    }
  }

  lemma {:induction false} SortFixpoint<T>(less: (T, T) -> bool, s: seq<T>)
    requires Ordered(less, s)
    ensures SortBy(less, s) == s
  {
    if s != [] {
      var n := |s| - 1;
      SortFixpoint(less, s[..n]);
      InsertLast(less, s[n], s[..n]);
    }
  }

  /** A strictly ordered list is the only ordered permutation of itself, so no sort, stable
      or not, can return another. */
  lemma {:induction false} StrictOrderUnique<T(!new)>(less: (T, T) -> bool, s: seq<T>, t: seq<T>)
    requires WeakOrder(less) && Ordered(less, t) && multiset(s) == multiset(t)
    requires forall i, j :: 0 <= i < j < |s| ==> less(s[i], s[j])
    ensures s == t
  {
    assert |s| == |multiset(s)| == |multiset(t)| == |t|;
    if s != [] {
      SameFirst(less, s, t);
      TailMultiset(s);
      TailMultiset(t);
      StrictOrderUnique(less, s[1..], t[1..]);
      assert s == [s[0]] + s[1..] && t == [t[0]] + t[1..];
    }
  }

  lemma TailMultiset<T>(s: seq<T>)
    requires s != []
    ensures multiset(s[1..]) == multiset(s) - multiset{s[0]}
  {
    assert s == [s[0]] + s[1..];
  }

  lemma SameFirst<T(!new)>(less: (T, T) -> bool, s: seq<T>, t: seq<T>)
    requires Ordered(less, t) && multiset(s) == multiset(t) && s != [] && t != []
    requires forall i, j :: 0 <= i < j < |s| ==> less(s[i], s[j])
    ensures s[0] == t[0]
  {
    assert s[0] in multiset(t) && t[0] in multiset(s);
    var i :| 0 <= i < |t| && t[i] == s[0];
    var j :| 0 <= j < |s| && s[j] == t[0];
    assert j > 0 ==> less(s[0], s[j]);
  }
}
