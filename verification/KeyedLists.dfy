/** The command lists told apart by key, and what is left of the submissions when some have
    been freed. */
module KeyedLists {
  import opened Sequences
  import opened CommandQueue

  /** The subsequence of commands with key k. */
  function Project(s: seq<Vbuf>, k: Key): seq<Vbuf> {
    if s == [] then []
    else Project(s[..|s| - 1], k) + (if s[|s| - 1].key == k then [s[|s| - 1]] else [])
  }

  function CountKey(s: seq<Key>, k: Key): nat {
    if s == [] then 0 else CountKey(s[..|s| - 1], k) + (if s[|s| - 1] == k then 1 else 0)
  }

  lemma {:induction false} ProjectSound(s: seq<Vbuf>, k: Key, v: Vbuf)
    requires v in Project(s, k)
    ensures v in s && v.key == k
    decreases |s|
  {
    if v in Project(s[..|s| - 1], k) {
      ProjectSound(s[..|s| - 1], k, v);
    }
  }

  lemma ProjectAppend(s: seq<Vbuf>, v: Vbuf, k: Key)
    ensures Project(s + [v], k) == Project(s, k) + (if v.key == k then [v] else [])
  {
    assert (s + [v])[..|s|] == s;
  }

  lemma {:induction false} ProjectConcat(s: seq<Vbuf>, t: seq<Vbuf>, k: Key)
    ensures Project(s + t, k) == Project(s, k) + Project(t, k)
    decreases |t|
  {
    if t == [] {
      assert s + t == s;
    } else {
      var u := t[..|t| - 1];
      assert (s + t)[..|s + t| - 1] == s + u;
      ProjectConcat(s, u, k);
    }
  }

  lemma {:induction false} ProjectNone(s: seq<Vbuf>, k: Key)
    requires forall v :: v in s ==> v.key != k
    ensures Project(s, k) == []
    decreases |s|
  {
    if s != [] { ProjectNone(s[..|s| - 1], k); }
  }

  lemma {:induction false} ProjectMember(s: seq<Vbuf>, v: Vbuf)
    requires v in s
    ensures v in Project(s, v.key)
    decreases |s|
  {
    if s[|s| - 1] != v {
      assert v in s[..|s| - 1];
      ProjectMember(s[..|s| - 1], v);
    }
  }

  lemma ProjectSplit(s: seq<Vbuf>, i: nat, k: Key)
    requires i < |s|
    ensures Project(s, k) == Project(s[..i], k) + (if s[i].key == k then [s[i]] else []) + Project(s[i + 1..], k)
  {
    assert s == s[..i + 1] + s[i + 1..];
    ProjectConcat(s[..i + 1], s[i + 1..], k);
    assert s[..i + 1] == s[..i] + [s[i]];
    ProjectAppend(s[..i], s[i], k);
  }

  lemma ProjectKeyOf(s: seq<Vbuf>, k: Key, i: nat)
    requires i < |Project(s, k)|
    ensures Project(s, k)[i].key == k && Project(s, k)[i] in s
  {
    ProjectSound(s, k, Project(s, k)[i]);
  }

  lemma {:induction false} CountIsProjection(rs: seq<Key>, ds: seq<Vbuf>, k: Key)
    requires |rs| == |ds| && forall i :: 0 <= i < |rs| ==> ds[i].key == rs[i]
    ensures CountKey(rs, k) == |Project(ds, k)|
    decreases |rs|
  {
    if rs != [] {
      CountIsProjection(rs[..|rs| - 1], ds[..|ds| - 1], k);
    }
  }

  lemma {:induction false} ProjectNoDup(s: seq<Vbuf>, k: Key)
    requires NoDup(s)
    ensures NoDup(Project(s, k))
    decreases |s|
  {
    if s != [] {
      var u := s[..|s| - 1];
      ProjectNoDup(u, k);
      if s[|s| - 1] in Project(u, k) {
        ProjectSound(u, k, s[|s| - 1]);
        assert false;
      }
    }
  }

  // ---- what is left of the submissions ----

  /** The submitted commands that are still allocated, in the order of submission. */
  function Remaining(s: seq<Vbuf>, live: set<Vbuf>): seq<Vbuf> {
    if s == [] then []
    else Remaining(s[..|s| - 1], live) + (if s[|s| - 1] in live then [s[|s| - 1]] else [])
  }

  lemma RemainingAppend(s: seq<Vbuf>, v: Vbuf, live: set<Vbuf>)
    ensures Remaining(s + [v], live) == Remaining(s, live) + (if v in live then [v] else [])
  {
    assert (s + [v])[..|s|] == s;
  }

  lemma {:induction false} RemainingConcat(s: seq<Vbuf>, t: seq<Vbuf>, live: set<Vbuf>)
    ensures Remaining(s + t, live) == Remaining(s, live) + Remaining(t, live)
    decreases |t|
  {
    if t == [] {
      assert s + t == s;
    } else {
      var u := t[..|t| - 1];
      assert (s + t)[..|s + t| - 1] == s + u;
      RemainingConcat(s, u, live);
    }
  }

  lemma {:induction false} RemainingMember(s: seq<Vbuf>, live: set<Vbuf>, v: Vbuf)
    ensures v in Remaining(s, live) <==> v in s && v in live
    decreases |s|
  {
    if s != [] {
      var u := s[..|s| - 1];
      RemainingMember(u, live, v);
      assert s == u + [s[|s| - 1]];
    }
  }

  /** Only the listed commands matter. */
  lemma {:induction false} RemainingSame(s: seq<Vbuf>, live: set<Vbuf>, live': set<Vbuf>)
    requires forall v :: v in s ==> (v in live <==> v in live')
    ensures Remaining(s, live) == Remaining(s, live')
    decreases |s|
  {
    if s != [] { RemainingSame(s[..|s| - 1], live, live'); }
  }

  lemma WithoutLast(s: seq<Vbuf>, v: Vbuf)
    requires v !in s
    ensures Without(s + [v], v) == s
  {
    var i := IndexOf(s + [v], v);
    forall j | 0 <= j < |s|
      ensures (s + [v])[j] != v
    {
      assert s[j] in s;
    }
    assert i == |s|;
  }

  lemma WithoutFront(s: seq<Vbuf>, x: Vbuf, v: Vbuf)
    requires v in s
    ensures Without(s + [x], v) == Without(s, v) + [x]
  {
    var i, j := IndexOf(s, v), IndexOf(s + [x], v);
    assert (s + [x])[..j] == if j <= |s| then s[..j] else s + [x];
    assert (s + [x])[i] == v;
    assert i == j;
  }

  lemma LastIsNew(s: seq<Vbuf>)
    requires NoDup(s) && s != []
    ensures s[|s| - 1] !in s[..|s| - 1] && NoDup(s[..|s| - 1])
  {
  }

  /** Freeing one takes it out and keeps the order. */
  lemma {:induction false} RemainingFree(s: seq<Vbuf>, live: set<Vbuf>, v: Vbuf)
    requires NoDup(s) && v in s && v in live
    ensures Remaining(s, live - {v}) == Without(Remaining(s, live), v)
    decreases |s|
  {
    hide Without, NoDup;
    var u, x := s[..|s| - 1], s[|s| - 1];
    LastIsNew(s);
    RemainingMember(u, live, v);
    if x == v {
      RemainingSame(u, live, live - {v});
      WithoutLast(Remaining(u, live), v);
    } else {
      assert s == u + [x];
      RemainingFree(u, live, v);
      var r, r1 := Remaining(u, live), Remaining(u, live - {v});
      WithoutFront(r, x, v);
      assert r + [] == r && r1 + [] == r1;
    }
  }

  /** With every earlier submission of its key gone, a command is the first of its key. */
  lemma RemainingFirst(s: seq<Vbuf>, live: set<Vbuf>, k: Key, p: nat)
    requires p < |s| && s[p].key == k && s[p] in live
    requires forall x :: x in s[..p] && x.key == k ==> x !in live
    ensures var r := Remaining(s, live); FirstWithKey(r, k) < |r| && r[FirstWithKey(r, k)] == s[p]
  {
    var a, c, r := Remaining(s[..p], live), Remaining(s[p + 1..], live), Remaining(s, live);
    assert s == s[..p + 1] + s[p + 1..] && s[..p + 1] == s[..p] + [s[p]];
    RemainingConcat(s[..p + 1], s[p + 1..], live);
    RemainingAppend(s[..p], s[p], live);
    assert r == a + [s[p]] + c;
    forall j | 0 <= j < |a|
      ensures r[j].key != k
    {
      assert r[j] == a[j] && a[j] in a;
      RemainingMember(s[..p], live, a[j]);
    }
    assert r[|a|] == s[p];
  }
}
