/** Small vocabulary shared by every component: optional values, C strings,
    flattening, and the order-preserving removal of one element from a sequence. */
module Common {

  datatype Option<+T> = None | Some(value: T)

  /** What a callee sees of a buffer passed as `const char*`: everything before
      the first NUL (`strlen`, `strcpy` and `+= buffer` all stop there). */
  function CString(buffer: string): (r: string)
    ensures '\0' !in r
    ensures r <= buffer
    ensures |r| < |buffer| ==> buffer[|r|] == '\0'
  {
    if buffer == "" || buffer[0] == '\0' then "" else [buffer[0]] + CString(buffer[1..])
  }

  lemma CStringIdentity(buffer: string)
    ensures CString(buffer) == buffer <==> '\0' !in buffer
  {
  }

  lemma Regroup<T>(a: seq<T>, b: seq<T>, c: seq<T>)
    ensures a + b + c == a + (b + c)
  {
  }

  function Flatten<T>(parts: seq<seq<T>>): seq<T> {
    if parts == [] then [] else parts[0] + Flatten(parts[1..])
  }

  ghost predicate NoDup<T>(s: seq<T>) {
    forall i, j :: 0 <= i < j < |s| ==> s[i] != s[j]
  }

  lemma NoDupAppend<T>(s: seq<T>, x: T)
    requires NoDup(s) && x !in s
    ensures NoDup(s + [x])
  {
  }

  /** The elements of `s` different from `x`, in order. */
  function Without<T(==)>(s: seq<T>, x: T): (r: seq<T>)
    ensures x !in r
    ensures forall y :: y in r ==> y in s && y != x
    ensures forall y :: y in s && y != x ==> y in r
    ensures |r| <= |s|
    ensures x !in s ==> r == s
  {
    if s == [] then []
    else if s[0] == x then Without(s[1..], x)
    else
      assert s == [s[0]] + s[1..];
      [s[0]] + Without(s[1..], x)
  }

  lemma {:induction false} WithoutAppend<T>(s: seq<T>, x: T, y: T)
    ensures Without(s + [y], x) == Without(s, x) + (if y == x then [] else [y])
  {
    if s == [] {
      assert s + [y] == [y];
      assert [y][1..] == [];
    } else {
      assert (s + [y])[1..] == s[1..] + [y];
      WithoutAppend(s[1..], x, y);
    }
  }

  /** The removal drops every occurrence of the target and keeps the
      multiplicity of everything else. */
  lemma {:induction false} WithoutMultiset<T>(s: seq<T>, x: T)
    ensures multiset(Without(s, x)) == multiset(s)[x := 0]
  {
    if s != [] {
      WithoutMultiset(s[1..], x);
      assert s == [s[0]] + s[1..];
    }
  }

  /** The removal keeps the order: every pair of kept elements comes, in the
      same order, from a pair of the original. */
  lemma {:induction false} WithoutKeepsOrder<T>(s: seq<T>, x: T, i: nat, j: nat) returns (p: nat, q: nat)
    requires i < j < |Without(s, x)|
    ensures p < q < |s| && s[p] == Without(s, x)[i] && s[q] == Without(s, x)[j]
  {
    if s[0] == x {
      p, q := WithoutKeepsOrder(s[1..], x, i, j);
      p, q := p + 1, q + 1;
    } else if i == 0 {
      var k := j - 1;
      assert Without(s, x)[j] == Without(s[1..], x)[k];
      assert Without(s[1..], x)[k] in s[1..];
      q :| q < |s[1..]| && s[1..][q] == Without(s, x)[j];
      p, q := 0, q + 1;
    } else {
      p, q := WithoutKeepsOrder(s[1..], x, i - 1, j - 1);
      p, q := p + 1, q + 1;
    }
  }

  lemma {:induction false} WithoutNoDup<T>(s: seq<T>, x: T)
    requires NoDup(s)
    ensures NoDup(Without(s, x))
    ensures |Without(s, x)| == |s| - (if x in s then 1 else 0)
  {
    if s != [] {
      assert NoDup(s[1..]);
      WithoutNoDup(s[1..], x);
      assert s[0] !in s[1..];
      assert x in s <==> x == s[0] || x in s[1..];
    }
  }

  /** A sequence without repetitions has as many elements as its set. */
  lemma {:induction false} NoDupCardinality<T>(s: seq<T>)
    requires NoDup(s)
    ensures |set x | x in s| == |s|
  {
    if s != [] {
      NoDupCardinality(s[1..]);
      assert (set x | x in s) == {s[0]} + (set x | x in s[1..]);
      assert s[0] !in s[1..];
    } else {
      assert (set x | x in s) == {};
    }
  }
}
