/** The parts of Java's runtime the engine leans on that are not about text:
    `null` results (Option), list accumulation by a test (Filter), and the
    32-bit `int` arithmetic used for stock quantities. */
module Lang {

  /** A result that Java returns as an object or `null`. */
  datatype Option<+T> = None | Some(value: T)

  /** Java's `int`: the values a stock quantity or an entered amount can take. */
  type Int32 = x: int | -0x8000_0000 <= x < 0x8000_0000

  /** Java `int` addition wraps around modulo 2^32. */
  function Wrap32(x: int): (r: Int32)
    ensures -0x8000_0000 <= x < 0x8000_0000 ==> r == x
    ensures (r - x) % 0x1_0000_0000 == 0
  {
    var m := x % 0x1_0000_0000;
    if m < 0x8000_0000 then m else m - 0x1_0000_0000
  }

  /** The elements of `s` that pass `p`, in their original order: what every
      read loop of the engine builds when it adds matching records to a list. */
  function Filter<T(!new)>(s: seq<T>, p: T -> bool): (r: seq<T>)
    ensures |r| <= |s|
  {
    if s == [] then []
    else Filter(s[..|s| - 1], p) + (if p(s[|s| - 1]) then [s[|s| - 1]] else [])
  }

  /** The filter keeps exactly the elements that pass. */
  lemma {:induction false} FilterMembers<T(!new)>(s: seq<T>, p: T -> bool)
    ensures forall x :: x in Filter(s, p) <==> x in s && p(x)
  {
    if s != [] {
      var init, last := s[..|s| - 1], s[|s| - 1];
      FilterMembers(init, p);
      assert s == init + [last];
      forall x ensures x in Filter(s, p) <==> x in s && p(x) {
        assert x in s <==> x in init || x == last;
      }
    }
  }

  /** Filtering distributes over concatenation, so it keeps store order. */
  lemma {:induction false} FilterAppend<T(!new)>(a: seq<T>, b: seq<T>, p: T -> bool)
    ensures Filter(a + b, p) == Filter(a, p) + Filter(b, p)
    decreases |b|
  {
    if b == [] {
      assert a + b == a;
    } else {
      var b' := b[..|b| - 1];
      assert (a + b)[..|a + b| - 1] == a + b';
      FilterAppend(a, b', p);
    }
  }

  /** Extending a prefix by one element extends the filter by at most that element. */
  lemma FilterStep<T(!new)>(s: seq<T>, i: nat, p: T -> bool)
    requires i < |s|
    ensures Filter(s[..i + 1], p) == Filter(s[..i], p) + (if p(s[i]) then [s[i]] else [])
  {
    assert s[..i + 1][..i] == s[..i];
  }

  /** A filter drops something exactly when some element fails the test. */
  lemma FilterKeepsAll<T(!new)>(s: seq<T>, p: T -> bool)
    ensures |Filter(s, p)| == |s| <==> forall k | 0 <= k < |s| :: p(s[k])
    ensures (forall k | 0 <= k < |s| :: p(s[k])) ==> Filter(s, p) == s
  {
    if forall k | 0 <= k < |s| :: p(s[k]) {
      FilterKeepsEvery(s, p);
    } else {
      var j :| 0 <= j < |s| && !p(s[j]);
      FilterDrops(s, p, j);
    }
  }

  lemma {:induction false} FilterKeepsEvery<T(!new)>(s: seq<T>, p: T -> bool)
    requires forall k | 0 <= k < |s| :: p(s[k])
    ensures Filter(s, p) == s
  {
    if s != [] {
      var n := |s| - 1;
      assert forall k | 0 <= k < n :: s[..n][k] == s[k];
      FilterKeepsEvery(s[..n], p);
      assert s[..n] + [s[n]] == s;
    }
  }

  lemma {:induction false} FilterDrops<T(!new)>(s: seq<T>, p: T -> bool, j: nat)
    requires j < |s| && !p(s[j])
    ensures |Filter(s, p)| < |s|
  {
    var n := |s| - 1;
    if j < n {
      assert s[..n][j] == s[j];
      FilterDrops(s[..n], p, j);
    }
  }

  lemma AppendAssociates<T>(a: seq<T>, b: seq<T>, c: seq<T>)
    ensures (a + b) + c == a + (b + c)
  {
  }

  /** No element occurs twice. */
  predicate Distinct<T(==)>(s: seq<T>)
  {
    forall i, j | 0 <= i < j < |s| :: s[i] != s[j]
  }

  /** A filter of a sequence without repeats has no repeats. */
  lemma {:induction false} FilterDistinct<T(!new)>(s: seq<T>, p: T -> bool)
    requires Distinct(s)
    ensures Distinct(Filter(s, p))
  {
    if s != [] {
      var init := s[..|s| - 1];
      assert Distinct(init);
      FilterDistinct(init, p);
      FilterMembers(init, p);
      assert s[|s| - 1] !in init;
    }
  }

  /** Nothing passes, so nothing is kept. */
  lemma FilterNone<T(!new)>(s: seq<T>, p: T -> bool)
    requires forall x | x in s :: !p(x)
    ensures Filter(s, p) == []
  {
    FilterMembers(s, p);
  }

  /** The first element of `s` that passes `p`, as a stream's `findFirst`. */
  function First<T>(s: seq<T>, p: T -> bool): (r: Option<T>)
    ensures r.None? <==> forall k | 0 <= k < |s| :: !p(s[k])
    ensures r.Some? ==> exists k | 0 <= k < |s| :: s[k] == r.value && p(s[k]) &&
                          forall j | 0 <= j < k :: !p(s[j])
  {
    if s == [] then None
    else if p(s[0]) then Some(s[0])
    else
      var r := First(s[1..], p);
      assert forall k | 1 <= k < |s| :: s[k] == s[1..][k - 1];
      r
  }
}
