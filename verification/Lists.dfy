/** Duplicate-free sequences and first-occurrence deduplication. */
module Lists {

  ghost predicate NoDup<T>(s: seq<T>) {
    forall i, j :: 0 <= i < j < |s| ==> s[i] != s[j]
  }

  function SetOf<T(!new)>(s: seq<T>): (r: set<T>)
    ensures forall x :: x in r <==> x in s
  {
    set x | x in s
  }

  lemma NoDupConcat<T>(a: seq<T>, b: seq<T>)
    requires NoDup(a) && NoDup(b)
    requires forall x :: x in a ==> x !in b
    ensures NoDup(a + b)
  {
    var s := a + b;
    forall i, j | 0 <= i < j < |s|
      ensures s[i] != s[j]
    {
      if i < |a| <= j {
        assert s[i] in a && s[j] == b[j - |a|];
      }
    }
  }

  lemma {:induction false} NoDupCardinality<T(!new)>(s: seq<T>)
    requires NoDup(s)
    ensures |SetOf(s)| == |s|
  {
    if s != [] {
      var init, last := s[..|s| - 1], s[|s| - 1];
      NoDupCardinality(init);
      assert s == init + [last];
      assert SetOf(s) == SetOf(init) + {last};
      assert last !in init;
    }
  }

  /** The first occurrence of every element, in order. */
  function Dedup<T(==, !new)>(s: seq<T>): (r: seq<T>)
    ensures forall x :: x in r <==> x in s
    ensures NoDup(r)
  {
    if s == [] then []
    else
      var init := Dedup(s[..|s| - 1]);
      if s[|s| - 1] in init then init else init + [s[|s| - 1]]
  }

  ghost function FirstAt<T>(s: seq<T>, x: T): (i: nat)
    requires x in s
    ensures i < |s| && s[i] == x && x !in s[..i]
  {
    var init := s[..|s| - 1];
    if x in init then assert init[..FirstAt(init, x)] == s[..FirstAt(init, x)]; FirstAt(init, x) else |s| - 1
  }

  /** The elements of `r` are elements of `s`, in the order in which they first occur there. */
  ghost predicate InFirstOrder<T(!new)>(r: seq<T>, s: seq<T>) {
    && (forall x :: x in r ==> x in s)
    && forall i, j :: 0 <= i < j < |r| ==> FirstAt(s, r[i]) < FirstAt(s, r[j])
  }

  lemma {:induction false} DedupInOrder<T(!new)>(s: seq<T>)
    ensures InFirstOrder(Dedup(s), s)
  {
    if s != [] {
      var init, r := s[..|s| - 1], Dedup(s);
      DedupInOrder(init);
      forall i, j | 0 <= i < j < |r|
        ensures FirstAt(s, r[i]) < FirstAt(s, r[j])
      {
        assert r[i] == Dedup(init)[i];
        assert r[i] in init;
        if j < |Dedup(init)| {
          assert r[j] == Dedup(init)[j];
          assert r[j] in init;
        }
      }
    }
  }

  lemma InFirstOrderAppend<T(!new)>(r: seq<T>, init: seq<T>, last: T, s: seq<T>)
    requires InFirstOrder(init + [last], s) && InFirstOrder(r, s)
    requires forall x :: x in r ==> x in init
    ensures InFirstOrder(r + [last], s)
  {
    var names, after := init + [last], r + [last];
    assert names[|init|] == last;
    forall i, j | 0 <= i < j < |after|
      ensures FirstAt(s, after[i]) < FirstAt(s, after[j])
    {
      assert r[i] in init;
      var m :| 0 <= m < |init| && init[m] == r[i];
      assert names[m] == r[i];
    }
  }
}
