/** Ordered searches shared by resolution and completion: the first hit of a
    scan, and the concatenation of what every step of a scan contributes. */
module FirstMatch {

  /** The Java `null`-or-value result of every lookup in the engine. */
  datatype Option<+T> = None | Some(value: T) {
    /** `this` when it is a hit, otherwise `other`: "if (x != null) return x;". */
    function OrElse(other: Option<T>): Option<T> {
      if Some? then this else other
    }
  }

  /** The first non-None value of `f` over `s`, in order; None when every
      element gives None. This is a for-loop with an early return. */
  function FirstSome<T, U>(s: seq<T>, f: T -> Option<U>): (r: Option<U>)
    ensures r.Some? <==> exists i :: 0 <= i < |s| && f(s[i]).Some?
    ensures r.Some? ==> exists i :: 0 <= i < |s| && f(s[i]) == r && NoneBefore(s, f, i)
  {
    if |s| == 0 then None
    else if f(s[0]).Some? then
      assert NoneBefore(s, f, 0);
      f(s[0])
    else
      var rest := FirstSome(s[1..], f);
      assert forall i :: 1 <= i < |s| ==> s[i] == s[1..][i - 1];
      assert rest.Some? ==> exists i :: 1 <= i < |s| && f(s[i]) == rest && NoneBefore(s, f, i) by {
        if rest.Some? {
          var i :| 0 <= i < |s[1..]| && f(s[1..][i]) == rest && NoneBefore(s[1..], f, i);
          assert NoneBefore(s, f, i + 1);
        }
      }
      rest
  }

  /** No element of `s` before index `i` gives a hit. */
  predicate NoneBefore<T, U>(s: seq<T>, f: T -> Option<U>, i: int)
    requires 0 <= i <= |s|
  {
    forall j :: 0 <= j < i ==> f(s[j]).None?
  }

  /** Scanning `a + b` is scanning `a`, and only when that misses, `b`. */
  lemma {:induction false} FirstSomeAppend<T, U>(a: seq<T>, b: seq<T>, f: T -> Option<U>)
    ensures FirstSome(a + b, f) == FirstSome(a, f).OrElse(FirstSome(b, f))
  {
    if |a| > 0 {
      assert (a + b)[0] == a[0];
      assert (a + b)[1..] == a[1..] + b;
      FirstSomeAppend(a[1..], b, f);
    } else {
      assert a + b == b;
    }
  }

  /** The concatenation of `f(x)` for every `x` of `s`, in order: what a loop
      that appends `f(x)` for each element leaves behind. */
  function ConcatMap<T, U>(s: seq<T>, f: T -> seq<U>): (r: seq<U>)
    ensures forall i, y :: 0 <= i < |s| && y in f(s[i]) ==> y in r
  {
    if |s| == 0 then []
    else
      var rest := ConcatMap(s[1..], f);
      assert forall i :: 1 <= i < |s| ==> s[i] == s[1..][i - 1];
      f(s[0]) + rest
  }

  lemma {:induction false} ConcatMapAppend<T, U>(a: seq<T>, b: seq<T>, f: T -> seq<U>)
    ensures ConcatMap(a + b, f) == ConcatMap(a, f) + ConcatMap(b, f)
  {
    if |a| > 0 {
      assert (a + b)[0] == a[0];
      assert (a + b)[1..] == a[1..] + b;
      ConcatMapAppend(a[1..], b, f);
    } else {
      assert a + b == b;
    }
  }

  /** One more loop iteration appends the contribution of the next element. */
  lemma ConcatMapSnoc<T, U>(s: seq<T>, i: int, f: T -> seq<U>)
    requires 0 <= i < |s|
    ensures ConcatMap(s[..i + 1], f) == ConcatMap(s[..i], f) + f(s[i])
  {
    assert s[..i + 1] == s[..i] + [s[i]];
    ConcatMapAppend(s[..i], [s[i]], f);
    assert ConcatMap([s[i]], f) == f(s[i]) + ConcatMap([s[i]][1..], f);
  }
}
