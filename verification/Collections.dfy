/** What several components share: optional values, and one sequence being part of another. */
module Collections {
  datatype Option<+T> = None | Some(value: T)

  /** `a` is `b` with some elements left out. */
  ghost predicate Within<T>(a: seq<T>, b: seq<T>) {
    a == [] || (b != [] && ((a[0] == b[0] && Within(a[1..], b[1..])) || Within(a, b[1..])))
  }

  lemma {:induction false} WithinTail<T>(a: seq<T>, b: seq<T>)
    requires Within(a, b) && a != []
    ensures b != [] && Within(a[1..], b[1..])
  {
    if !(a[0] == b[0] && Within(a[1..], b[1..])) {
      WithinTail(a, b[1..]);
    }
  }

  lemma {:induction false} WithinAppend<T>(a: seq<T>, b: seq<T>, x: T)
    requires Within(a, b)
    ensures Within(a + [x], b + [x])
  {
    if b != [] {
      assert (b + [x])[1..] == b[1..] + [x];
      if a != [] && a[0] == b[0] && Within(a[1..], b[1..]) {
        assert (a + [x])[1..] == a[1..] + [x];
        WithinAppend(a[1..], b[1..], x);
      } else {
        WithinAppend(a, b[1..], x);
      }
    }
  }

  lemma {:induction false} WithinLonger<T>(a: seq<T>, b: seq<T>, x: T)
    requires Within(a, b)
    ensures Within(a, b + [x])
  {
    if a != [] {
      assert (b + [x])[1..] == b[1..] + [x];
      if a[0] == b[0] && Within(a[1..], b[1..]) {
        WithinLonger(a[1..], b[1..], x);
      } else {
        WithinLonger(a, b[1..], x);
      }
    }
  }

  lemma {:induction false} WithinPrefix<T>(a: seq<T>, c: seq<T>, b: seq<T>)
    requires Within(a + c, b)
    ensures Within(a, b)
  {
    if a != [] {
      if a[0] == b[0] && Within((a + c)[1..], b[1..]) {
        assert (a + c)[1..] == a[1..] + c;
        WithinPrefix(a[1..], c, b[1..]);
      } else {
        WithinPrefix(a, c, b[1..]);
      }
    }
  }

  /** A part as long as the whole is the whole. */
  lemma {:induction false} WithinWhole<T>(a: seq<T>, b: seq<T>)
    requires Within(a, b)
    ensures |a| <= |b|
    ensures |a| == |b| ==> a == b
  {
    if a != [] {
      if a[0] == b[0] && Within(a[1..], b[1..]) {
        WithinWhole(a[1..], b[1..]);
      } else {
        WithinWhole(a, b[1..]);
      }
    }
  }
}
