/** The two ways the game's loops thin out an entity list: "update every
    element, then drop the ones that fail a test" (the reverse splice loops of
    updateBalls and updateParticles), and "drop the elements a mask marks"
    (the removals of checkBallCollisions). */
module Sequences {

  /** Applies `f` to every element and keeps, in order, the images that satisfy `keep`. */
  function MapFilter<T>(s: seq<T>, f: T -> T, keep: T -> bool): (r: seq<T>)
    ensures |r| <= |s|
    ensures forall x :: x in r ==> keep(x)
  {
    if s == [] then []
    else (if keep(f(s[0])) then [f(s[0])] else []) + MapFilter(s[1..], f, keep)
  }

  /** The positions, counted from `base`, of the elements whose image is kept. */
  function KeptFrom<T>(s: seq<T>, f: T -> T, keep: T -> bool, base: nat): (idx: seq<nat>)
    ensures forall j :: 0 <= j < |idx| ==> base <= idx[j] < base + |s|
  {
    if s == [] then []
    else (if keep(f(s[0])) then [base] else []) + KeptFrom(s[1..], f, keep, base + 1)
  }

  ghost predicate Increasing(idx: seq<nat>) {
    forall j, k :: 0 <= j < k < |idx| ==> idx[j] < idx[k]
  }

  /** MapFilter keeps the image of element `i` exactly when that image passes
      `keep`, and the kept images appear in the order of their originals. */
  lemma {:induction false} MapFilterSelects<T>(s: seq<T>, f: T -> T, keep: T -> bool, base: nat)
    ensures var r, idx := MapFilter(s, f, keep), KeptFrom(s, f, keep, base);
      && |r| == |idx|
      && Increasing(idx)
      && (forall j :: 0 <= j < |idx| ==> r[j] == f(s[idx[j] - base]))
      && (forall i :: 0 <= i < |s| ==> (keep(f(s[i])) <==> base + i in idx))
  {
    MapFilterLength(s, f, keep, base);
    KeptIncreasing(s, f, keep, base);
    KeptMembership(s, f, keep, base);
    forall j | 0 <= j < |KeptFrom(s, f, keep, base)|
      ensures j < |MapFilter(s, f, keep)|
      ensures MapFilter(s, f, keep)[j] == f(s[KeptFrom(s, f, keep, base)[j] - base])
    {
      MapFilterAt(s, f, keep, base, j);
    }
  }

  lemma {:induction false} KeptIncreasing<T>(s: seq<T>, f: T -> T, keep: T -> bool, base: nat)
    ensures Increasing(KeptFrom(s, f, keep, base))
  {
    if s != [] {
      KeptIncreasing(s[1..], f, keep, base + 1);
    }
  }

  lemma {:induction false} KeptMembership<T>(s: seq<T>, f: T -> T, keep: T -> bool, base: nat)
    ensures forall i :: 0 <= i < |s| ==> (keep(f(s[i])) <==> base + i in KeptFrom(s, f, keep, base))
  {
    if s != [] {
      var idx' := KeptFrom(s[1..], f, keep, base + 1);
      KeptMembership(s[1..], f, keep, base + 1);
      assert KeptFrom(s, f, keep, base) == (if keep(f(s[0])) then [base] else []) + idx';
      forall i | 0 < i < |s|
        ensures keep(f(s[i])) <==> base + 1 + (i - 1) in idx'
      {
        assert s[1..][i - 1] == s[i];
      }
    }
  }

  lemma {:induction false} MapFilterAt<T>(s: seq<T>, f: T -> T, keep: T -> bool, base: nat, j: nat)
    requires j < |KeptFrom(s, f, keep, base)|
    ensures |MapFilter(s, f, keep)| == |KeptFrom(s, f, keep, base)|
    ensures MapFilter(s, f, keep)[j] == f(s[KeptFrom(s, f, keep, base)[j] - base])
  {
    MapFilterLength(s, f, keep, base);
    var r', idx' := MapFilter(s[1..], f, keep), KeptFrom(s[1..], f, keep, base + 1);
    MapFilterLength(s[1..], f, keep, base + 1);
    if keep(f(s[0])) {
      assert MapFilter(s, f, keep) == [f(s[0])] + r';
      assert KeptFrom(s, f, keep, base) == [base] + idx';
      if j > 0 {
        MapFilterAt(s[1..], f, keep, base + 1, j - 1);
        assert s[1..][idx'[j - 1] - (base + 1)] == s[idx'[j - 1] - base];
      }
    } else {
      assert MapFilter(s, f, keep) == r';
      assert KeptFrom(s, f, keep, base) == idx';
      MapFilterAt(s[1..], f, keep, base + 1, j);
      assert s[1..][idx'[j] - (base + 1)] == s[idx'[j] - base];
    }
  }

  lemma {:induction false} MapFilterLength<T>(s: seq<T>, f: T -> T, keep: T -> bool, base: nat)
    ensures |MapFilter(s, f, keep)| == |KeptFrom(s, f, keep, base)|
  {
    if s != [] {
      MapFilterLength(s[1..], f, keep, base + 1);
    }
  }

  /** The elements of `s` whose mark in `m` is `w`, in order. */
  function Select<T>(s: seq<T>, m: seq<bool>, w: bool): (r: seq<T>)
    requires |m| == |s|
    ensures |r| <= |s|
  {
    if s == [] then []
    else
      var n := |s| - 1;
      Select(s[..n], m[..n], w) + (if m[n] == w then [s[n]] else [])
  }

  /** Every selected element is an element of `s` whose mark is `w`. */
  lemma {:induction false} SelectMembers<T>(s: seq<T>, m: seq<bool>, w: bool)
    requires |m| == |s|
    ensures forall x :: x in Select(s, m, w) ==> exists i :: 0 <= i < |s| && m[i] == w && s[i] == x
  {
    if s != [] {
      var n := |s| - 1;
      SelectMembers(s[..n], m[..n], w);
      forall x | x in Select(s, m, w)
        ensures exists i :: 0 <= i < |s| && m[i] == w && s[i] == x
      {
        if x in Select(s[..n], m[..n], w) {
          var i :| 0 <= i < n && m[..n][i] == w && s[..n][i] == x;
          assert m[i] == w && s[i] == x;
        } else {
          assert m[n] == w && s[n] == x;
        }
      }
    }
  }

  /** Extending both prefixes by one position adds that element when its mark is `w`. */
  lemma {:induction false} SelectSnoc<T>(s: seq<T>, m: seq<bool>, w: bool, j: nat)
    requires |m| == |s| && j < |s|
    ensures Select(s[..j + 1], m[..j + 1], w)
         == Select(s[..j], m[..j], w) + (if m[j] == w then [s[j]] else [])
  {
    assert s[..j + 1][..j] == s[..j];
    assert m[..j + 1][..j] == m[..j];
  }

  /** Every element goes to exactly one of the two selections. */
  lemma {:induction false} SelectPartition<T>(s: seq<T>, m: seq<bool>)
    requires |m| == |s|
    ensures |Select(s, m, true)| + |Select(s, m, false)| == |s|
  {
    if s != [] {
      SelectPartition(s[..|s| - 1], m[..|s| - 1]);
    }
  }

  /** An element whose mark is `w` is among the selected ones. */
  lemma {:induction false} SelectKeeps<T>(s: seq<T>, m: seq<bool>, w: bool, i: nat)
    requires |m| == |s| && i < |s| && m[i] == w
    ensures s[i] in Select(s, m, w)
  {
    var n := |s| - 1;
    if i < n {
      SelectKeeps(s[..n], m[..n], w, i);
    }
  }

  /** `f` applied `n` times to `x`. */
  function Iterate<T>(f: T -> T, x: T, n: nat): T {
    if n == 0 then x else f(Iterate(f, x, n - 1))
  }

  /** `n` successive MapFilter passes: the list after `n` frames of an update
      loop that maps every element and drops those failing `keep`. */
  function Rounds<T>(s: seq<T>, f: T -> T, keep: T -> bool, n: nat): (r: seq<T>)
    ensures |r| <= |s|
  {
    if n == 0 then s else MapFilter(Rounds(s, f, keep, n - 1), f, keep)
  }

  /** A lone element survives `n` passes exactly when each of its first `n`
      images passes `keep`, and then it is its `n`-th image; otherwise it is
      gone, and removal happens at the first pass whose image fails. */
  lemma {:induction false} RoundsOfOne<T>(x: T, f: T -> T, keep: T -> bool, n: nat)
    ensures (forall k :: 1 <= k <= n ==> keep(Iterate(f, x, k))) ==> Rounds([x], f, keep, n) == [Iterate(f, x, n)]
    ensures (exists k :: 1 <= k <= n && !keep(Iterate(f, x, k))) ==> Rounds([x], f, keep, n) == []
  {
    if n > 0 {
      RoundsOfOne(x, f, keep, n - 1);
      var y := Iterate(f, x, n - 1);
      if exists k :: 1 <= k <= n - 1 && !keep(Iterate(f, x, k)) {
        assert Rounds([x], f, keep, n - 1) == [];
      } else {
        assert Rounds([x], f, keep, n - 1) == [y];
        assert [y][1..] == [];
        if !keep(f(y)) {
          assert !keep(Iterate(f, x, n));
        }
      }
    }
  }
}
