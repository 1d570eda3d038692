/** Sorting by a strict total order, and the one strictly ascending list of a set. */
module Sorting {

  ghost predicate StrictOrder<T(!new)>(less: (T, T) -> bool) {
    && (forall a, b :: less(a, b) ==> !less(b, a))
    && (forall a, b, c :: less(a, b) && less(b, c) ==> less(a, c))
    && (forall a, b :: a == b || less(a, b) || less(b, a))
  }

  // ---------- Lexicographic order ----------

  predicate LexLess<T(==)>(less: (T, T) -> bool, a: seq<T>, b: seq<T>) {
    if b == [] then false
    else if a == [] then true
    else less(a[0], b[0]) || (a[0] == b[0] && LexLess(less, a[1..], b[1..]))
  }

  lemma {:induction false} LexTransitive<T(!new)>(less: (T, T) -> bool, a: seq<T>, b: seq<T>, c: seq<T>)
    requires StrictOrder(less) && LexLess(less, a, b) && LexLess(less, b, c)
    ensures LexLess(less, a, c)
  {
    if a != [] && a[0] == b[0] == c[0] {
      LexTransitive(less, a[1..], b[1..], c[1..]);
    }
  }

  lemma {:induction false} LexTotal<T(!new)>(less: (T, T) -> bool, a: seq<T>, b: seq<T>)
    requires StrictOrder(less)
    ensures !(LexLess(less, a, b) && LexLess(less, b, a))
    ensures a == b || LexLess(less, a, b) || LexLess(less, b, a)
  {
    if a != [] && b != [] {
      LexTotal(less, a[1..], b[1..]);
      assert a == [a[0]] + a[1..] && b == [b[0]] + b[1..];
    }
  }

  // a and b first differ at i: there a ends, or has the smaller element.
  predicate DiffersAt<T(==)>(less: (T, T) -> bool, a: seq<T>, b: seq<T>, i: nat) {
    i <= |a| && i < |b| && a[..i] == b[..i] && (i == |a| || less(a[i], b[i]))
  }

  /** The lexicographic order is decided at the first difference. */
  lemma {:induction false} LexIs<T>(less: (T, T) -> bool, a: seq<T>, b: seq<T>)
    ensures LexLess(less, a, b) <==> exists i: nat :: DiffersAt(less, a, b, i)
  {
    if a == [] || b == [] {
      if b != [] {
        assert DiffersAt(less, a, b, 0);
      }
    } else {
      LexIs(less, a[1..], b[1..]);
      if less(a[0], b[0]) {
        assert DiffersAt(less, a, b, 0);
      }
      if i: nat :| DiffersAt(less, a, b, i) && i > 0 {
        assert a[..i] == [a[0]] + a[1..][..i - 1] && b[..i] == [b[0]] + b[1..][..i - 1];
        assert a[..i][0] == b[..i][0] && a[..i][1..] == b[..i][1..];
        assert DiffersAt(less, a[1..], b[1..], i - 1);
      }
      if a[0] == b[0] {
        if i: nat :| DiffersAt(less, a[1..], b[1..], i) {
          assert a[..i + 1] == [a[0]] + a[1..][..i] && b[..i + 1] == [b[0]] + b[1..][..i];
          assert DiffersAt(less, a, b, i + 1);
        }
      }
    }
  }

  // ---------- Lists ----------

  ghost predicate Ascending<T(!new)>(less: (T, T) -> bool, s: seq<T>) {
    forall i, j | 0 <= i < j < |s| :: !less(s[j], s[i])
  }

  ghost predicate StrictlyAscending<T(!new)>(less: (T, T) -> bool, s: seq<T>) {
    forall i, j | 0 <= i < j < |s| :: less(s[i], s[j])
  }

  function Members<T>(s: seq<T>): set<T> {
    set i | 0 <= i < |s| :: s[i]
  }

  lemma MembersConcat<T>(a: seq<T>, b: seq<T>)
    ensures Members(a + b) == Members(a) + Members(b)
  {
    forall h | h in Members(b) ensures h in Members(a + b) {
      var i :| 0 <= i < |b| && b[i] == h;
      assert (a + b)[|a| + i] == h;
    }
    forall h | h in Members(a) ensures h in Members(a + b) {
      var i :| 0 <= i < |a| && a[i] == h;
      assert (a + b)[i] == h;
    }
  }

  lemma MembersOne<T>(h: T)
    ensures Members([h]) == {h}
  {
    assert [h][0] in Members([h]);
  }

  lemma MembersNone<T>(s: seq<T>)
    ensures Members(s) == {} <==> s == []
  {
    if s != [] {
      assert s[0] in Members(s);
    }
  }

  function Insert<T>(less: (T, T) -> bool, h: T, s: seq<T>): (r: seq<T>)
    ensures |r| == |s| + 1
  {
    if s == [] || less(h, s[0]) then [h] + s else [s[0]] + Insert(less, h, s[1..])
  }

  function Sort<T>(less: (T, T) -> bool, s: seq<T>): (r: seq<T>)
    ensures |r| == |s|
  {
    if s == [] then [] else Insert(less, s[|s| - 1], Sort(less, s[..|s| - 1]))
  }

  lemma {:induction false} InsertSorts<T(!new)>(less: (T, T) -> bool, h: T, s: seq<T>)
    requires StrictOrder(less) && Ascending(less, s)
    ensures Ascending(less, Insert(less, h, s)) && Members(Insert(less, h, s)) == Members(s) + {h}
  {
    MembersOne(h);
    if s == [] {
      assert [h] + s == [h];
    } else if less(h, s[0]) {
      MembersConcat([h], s);
    } else {
      var rest := Insert(less, h, s[1..]);
      InsertSorts(less, h, s[1..]);
      MembersOne(s[0]);
      MembersConcat([s[0]], s[1..]);
      MembersConcat([s[0]], rest);
      assert s == [s[0]] + s[1..];
      forall j | 0 <= j < |rest| ensures !less(rest[j], s[0]) {
        assert rest[j] in Members(rest);
      }
    }
  }

  /** Sorting keeps the members and puts them in order. */
  lemma {:induction false} SortSorts<T(!new)>(less: (T, T) -> bool, s: seq<T>)
    requires StrictOrder(less)
    ensures Ascending(less, Sort(less, s)) && Members(Sort(less, s)) == Members(s)
  {
    if s != [] {
      var front, last := s[..|s| - 1], s[|s| - 1];
      SortSorts(less, front);
      InsertSorts(less, last, Sort(less, front));
      assert s == front + [last];
      MembersConcat(front, [last]);
      MembersOne(last);
    }
  }

  /** A strictly ascending list is determined by its members. */
  lemma {:induction false} StrictUnique<T(!new)>(less: (T, T) -> bool, a: seq<T>, b: seq<T>)
    requires StrictOrder(less) && StrictlyAscending(less, a) && StrictlyAscending(less, b) && Members(a) == Members(b)
    ensures a == b
  {
    MembersNone(a);
    MembersNone(b);
    if a != [] {
      FirstIsLeast(less, a, b);
      FirstIsLeast(less, b, a);
      RestMembers(less, a);
      RestMembers(less, b);
      StrictUnique(less, a[1..], b[1..]);
      assert a == [a[0]] + a[1..] && b == [b[0]] + b[1..];
    }
  }

  lemma FirstIsLeast<T(!new)>(less: (T, T) -> bool, a: seq<T>, b: seq<T>)
    requires StrictOrder(less) && a != [] && b != [] && StrictlyAscending(less, a) && Members(b) <= Members(a)
    ensures !less(b[0], a[0])
  {
    assert b[0] in Members(b);
    var i :| 0 <= i < |a| && a[i] == b[0];
  }

  lemma RestMembers<T(!new)>(less: (T, T) -> bool, a: seq<T>)
    requires StrictOrder(less) && a != [] && StrictlyAscending(less, a)
    ensures Members(a[1..]) == Members(a) - {a[0]}
  {
    assert a == [a[0]] + a[1..];
    MembersConcat([a[0]], a[1..]);
    MembersOne(a[0]);
    forall h | h in Members(a[1..]) ensures h != a[0] {
      var i :| 0 <= i < |a[1..]| && a[1..][i] == h;
      assert a[i + 1] == h;
    }
  }
}
