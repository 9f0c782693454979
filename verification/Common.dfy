/** Types and finite sums shared by the models of the controllers, the scheduler plugin and the autoscaler. */
module Common {
  datatype Option<+T> = None | Some(value: T)

  datatype Pod = Pod(name: string, namespace: string)

  /** What a Go map read returns for a missing key of an integer-valued map. */
  function Get<K>(m: map<K, int>, k: K): int {
    if k in m then m[k] else 0
  }

  /** What a Go map read returns for a missing key of a slice-valued map. */
  function GetSeq<K, V>(m: map<K, seq<V>>, k: K): seq<V> {
    if k in m then m[k] else []
  }

  /** Two tables of counts added up. */
  function Plus(a: map<string, int>, b: map<string, int>): map<string, int> {
    map s | s in a.Keys + b.Keys :: Get(a, s) + Get(b, s)
  }

  /** The sequence with element k spliced out. */
  function Without<T>(xs: seq<T>, k: nat): seq<T>
    requires k < |xs|
  {
    xs[..k] + xs[k + 1..]
  }

  predicate NoDup<T(==)>(xs: seq<T>) {
    forall i, j :: 0 <= i < j < |xs| ==> xs[i] != xs[j]
  }

  ghost function Elements<T>(xs: seq<T>): set<T> {
    set x | x in xs
  }

  /** The next key of a Go `range` over a map: any key not visited yet. */
  method Pick<T>(rest: set<T>) returns (key: T)
    requires rest != {}
    ensures key in rest
  {
    key :| key in rest;
  }

  lemma NoDupConcat<T>(xs: seq<T>, ys: seq<T>)
    ensures NoDup(xs + ys) <==> NoDup(xs) && NoDup(ys) && forall j :: 0 <= j < |ys| ==> ys[j] !in xs
  {
    var all := xs + ys;
    if NoDup(all) {
      assert forall i :: 0 <= i < |xs| ==> xs[i] == all[i];
      assert forall j :: 0 <= j < |ys| ==> ys[j] == all[|xs| + j];
    }
  }

  /** The sum of f over a finite set; `SumRemove` shows that the order of the choices does not matter. */
  ghost function SumOver<T(!new)>(s: set<T>, f: T -> int): int
    decreases |s|
  {
    if s == {} then 0 else
      var x :| x in s;
      f(x) + SumOver(s - {x}, f)
  }

  lemma {:induction false} SumRemove<T(!new)>(s: set<T>, x: T, f: T -> int)
    requires x in s
    ensures SumOver(s, f) == f(x) + SumOver(s - {x}, f)
    decreases |s|
  {
    var y :| y in s && SumOver(s, f) == f(y) + SumOver(s - {y}, f);
    if y != x {
      SumRemove(s - {y}, x, f);
      SumRemove(s - {x}, y, f);
      assert s - {x} - {y} == s - {y} - {x};
    }
  }

  lemma SumInsert<T(!new)>(s: set<T>, x: T, f: T -> int)
    requires x !in s
    ensures SumOver(s + {x}, f) == f(x) + SumOver(s, f)
  {
    SumRemove(s + {x}, x, f);
    assert s + {x} - {x} == s;
  }

  lemma {:induction false} SumLe<T(!new)>(s: set<T>, f: T -> int, g: T -> int)
    requires forall x :: x in s ==> f(x) <= g(x)
    ensures SumOver(s, f) <= SumOver(s, g)
    ensures SumOver(s, f) == SumOver(s, g) ==> forall x :: x in s ==> f(x) == g(x)
    decreases |s|
  {
    if s != {} {
      var x :| x in s;
      SumRemove(s, x, f);
      SumRemove(s, x, g);
      SumLe(s - {x}, f, g);
    }
  }

  lemma {:induction false} SumEq<T(!new)>(s: set<T>, f: T -> int, g: T -> int)
    requires forall x :: x in s ==> f(x) == g(x)
    ensures SumOver(s, f) == SumOver(s, g)
  {
    SumLe(s, f, g);
    SumLe(s, g, f);
  }

  lemma {:induction false} SumSuperset<T(!new)>(s: set<T>, t: set<T>, f: T -> int)
    requires s <= t
    requires forall x :: x in t - s ==> f(x) >= 0
    ensures SumOver(s, f) <= SumOver(t, f)
    ensures (forall x :: x in t - s ==> f(x) == 0) ==> SumOver(s, f) == SumOver(t, f)
    decreases |t|
  {
    if s == t {
    } else {
      var x :| x in t && x !in s;
      SumRemove(t, x, f);
      SumSuperset(s, t - {x}, f);
    }
  }

  lemma {:induction false} ZeroSum<T(!new)>(s: set<T>, f: T -> int)
    requires forall x :: x in s ==> f(x) == 0
    ensures SumOver(s, f) == 0
  {
    SumSuperset({}, s, f);
  }

  ghost function SumSeq<T(!new)>(xs: seq<T>, f: T -> int): int {
    if xs == [] then 0 else SumSeq(xs[..|xs| - 1], f) + f(xs[|xs| - 1])
  }

  lemma {:induction false} SumSeqIsSumOver<T(!new)>(xs: seq<T>, f: T -> int)
    requires NoDup(xs)
    ensures SumSeq(xs, f) == SumOver(Elements(xs), f)
  {
    if xs != [] {
      var init, last := xs[..|xs| - 1], xs[|xs| - 1];
      SumSeqIsSumOver(init, f);
      assert xs == init + [last];
      assert Elements(xs) == Elements(init) + {last};
      assert last !in Elements(init);
      SumInsert(Elements(init), last, f);
    }
  }

  lemma {:induction false} SumSeqConcat<T(!new)>(xs: seq<T>, ys: seq<T>, f: T -> int)
    ensures SumSeq(xs + ys, f) == SumSeq(xs, f) + SumSeq(ys, f)
  {
    if ys == [] {
      assert xs + ys == xs;
    } else {
      var init := ys[..|ys| - 1];
      SumSeqConcat(xs, init, f);
      assert (xs + ys)[..|xs + ys| - 1] == xs + init;
    }
  }
}
