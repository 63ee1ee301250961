/** Case deltas and the order they are reported in (evals/compare.go). */
module DeltaOrder {
  datatype Key = Key(caseId: string, scorer: string)

  datatype CaseDelta = CaseDelta(
    key: Key,
    baselineValue: real,
    candidateValue: real,
    delta: real,
    baselinePassed: bool,
    candidatePassed: bool,
    reason: string)

  /** The order of Go strings: byte by byte, a proper prefix first. */
  predicate Less(a: string, b: string)
    decreases |a|
  {
    if b == "" then false
    else if a == "" then true
    else if a[0] != b[0] then a[0] < b[0]
    else Less(a[1..], b[1..])
  }

  /** The strings agree up to a place where `a` ends or has the smaller character. */
  ghost predicate SmallerAt(a: string, b: string, i: nat) {
    i <= |a| && i < |b| && a[..i] == b[..i] && (i == |a| || a[i] < b[i])
  }

  ghost predicate Smaller(a: string, b: string) { exists i: nat :: SmallerAt(a, b, i) }

  /** By case, then by scorer. */
  ghost predicate Precedes(a: Key, b: Key) {
    Smaller(a.caseId, b.caseId) || (a.caseId == b.caseId && Smaller(a.scorer, b.scorer))
  }

  /** Smaller is smaller at the first difference. */
  lemma {:induction false} LessIs(a: string, b: string)
    ensures Less(a, b) <==> Smaller(a, b)
    decreases |a|
  {
    if a != "" && b != "" && a[0] == b[0] {
      LessIs(a[1..], b[1..]);
      if Less(a[1..], b[1..]) {
        var i: nat :| SmallerAt(a[1..], b[1..], i);
        assert a[..i + 1] == [a[0]] + a[1..][..i] && b[..i + 1] == [b[0]] + b[1..][..i];
        assert SmallerAt(a, b, i + 1);
      }
      if i: nat :| SmallerAt(a, b, i) {
        assert i > 0 && a[1..][..i - 1] == a[..i][1..] && b[1..][..i - 1] == b[..i][1..];
        assert SmallerAt(a[1..], b[1..], i - 1);
      }
    } else if Less(a, b) {
      assert SmallerAt(a, b, 0);
    }
  }

  lemma {:induction false} LessTotal(a: string, b: string)
    ensures a == b ==> !Less(a, b) && !Less(b, a)
    ensures a != b ==> Less(a, b) != Less(b, a)
    decreases |a|
  {
    if a != "" && b != "" && a[0] == b[0] {
      LessTotal(a[1..], b[1..]);
      assert a == [a[0]] + a[1..] && b == [b[0]] + b[1..];
    }
  }

  lemma {:induction false} LessTrans(a: string, b: string, c: string)
    requires Less(a, b) && Less(b, c)
    ensures Less(a, c)
    decreases |a|
  {
    if a != "" && a[0] == b[0] == c[0] { LessTrans(a[1..], b[1..], c[1..]); }
  }

  predicate Before(a: Key, b: Key) {
    if a.caseId != b.caseId then Less(a.caseId, b.caseId) else Less(a.scorer, b.scorer)
  }

  lemma BeforeIs(a: Key, b: Key)
    ensures Before(a, b) <==> Precedes(a, b)
  {
    hide Less, Smaller;
    LessIs(a.caseId, b.caseId);
    LessIs(a.scorer, b.scorer);
    LessTotal(a.caseId, b.caseId);
  }

  lemma BeforeTotal(a: Key, b: Key)
    ensures a == b ==> !Before(a, b) && !Before(b, a)
    ensures a != b ==> Before(a, b) != Before(b, a)
  {
    hide Less;
    LessTotal(a.caseId, b.caseId);
    LessTotal(a.scorer, b.scorer);
  }

  lemma BeforeTrans(a: Key, b: Key, c: Key)
    requires Before(a, b) && Before(b, c)
    ensures Before(a, c)
  {
    hide Less;
    LessTotal(a.caseId, b.caseId);
    LessTotal(b.caseId, c.caseId);
    LessTotal(a.caseId, c.caseId);
    if a.caseId == b.caseId == c.caseId {
      LessTrans(a.scorer, b.scorer, c.scorer);
    } else if a.caseId != b.caseId && b.caseId != c.caseId {
      LessTrans(a.caseId, b.caseId, c.caseId);
    }
  }

  // ----- Sorting -----

  /** x after everything in xs that is not after it. */
  function Insert(xs: seq<CaseDelta>, x: CaseDelta): seq<CaseDelta> {
    if xs != [] && Before(x.key, xs[|xs| - 1].key) then Insert(xs[..|xs| - 1], x) + [xs[|xs| - 1]] else xs + [x]
  }

  function Sort(xs: seq<CaseDelta>): seq<CaseDelta> {
    if xs == [] then [] else Insert(Sort(xs[..|xs| - 1]), xs[|xs| - 1])
  }

  /** One exchange: x moves one place down and the insertion still to do gives the same. */
  lemma Exchange(s: seq<CaseDelta>, j: nat)
    requires 0 < j < |s| && Before(s[j].key, s[j - 1].key)
    ensures var t := s[j := s[j - 1]][j - 1 := s[j]];
            Insert(t[..j - 1], t[j - 1]) + t[j..] == Insert(s[..j], s[j]) + s[j + 1..]
  {
    hide Before;
    var t := s[j := s[j - 1]][j - 1 := s[j]];
    assert s[..j][..j - 1] == s[..j - 1] == t[..j - 1];
    assert t[j..] == [s[j - 1]] + s[j + 1..];
    var front := Insert(s[..j - 1], s[j]);
    assert front + [s[j - 1]] + s[j + 1..] == front + ([s[j - 1]] + s[j + 1..]);
  }

  lemma Settled(s: seq<CaseDelta>, j: nat)
    requires j < |s| && (j == 0 || !Before(s[j].key, s[j - 1].key))
    ensures Insert(s[..j], s[j]) + s[j + 1..] == s
  {
    hide Before;
    assert s == s[..j] + [s[j]] + s[j + 1..];
  }

  /** Carry the element at `i` back to its place. */
  method InsertBack(a: array<CaseDelta>, i: nat)
    requires i < a.Length
    modifies a
    ensures a[..] == Insert(old(a[..])[..i], old(a[..])[i]) + old(a[..])[i + 1..]
  {
    hide Before, Insert;
    var j := i;
    while j > 0 && Before(a[j].key, a[j - 1].key)
      invariant 0 <= j <= i
      invariant Insert(a[..][..j], a[..][j]) + a[..][j + 1..] == Insert(old(a[..])[..i], old(a[..])[i]) + old(a[..])[i + 1..]
    {
      ghost var s := a[..];
      a[j], a[j - 1] := a[j - 1], a[j];
      assert a[..] == s[j := s[j - 1]][j - 1 := s[j]];
      Exchange(s, j);
      j := j - 1;
    }
    Settled(a[..], j);
  }

  lemma Halves(now: seq<CaseDelta>, front: seq<CaseDelta>, was: seq<CaseDelta>)
    requires |front| < |was| && now == front + was[|front|..]
    ensures |now| == |was| && now[..|front|] == front && now[|front|] == was[|front|]
    ensures now[|front| + 1..] == was[|front| + 1..]
  {
  }

  /** sortCaseDeltas. */
  method SortCaseDeltas(a: array<CaseDelta>)
    modifies a
    ensures a[..] == Sort(old(a[..]))
  {
    hide Insert, Sort;
    ghost var was := a[..];
    SortNone(was);
    for i := 0 to a.Length
      invariant a[..] == Sort(was[..i]) + was[i..]
      invariant |Sort(was[..i])| == i
    {
      Halves(a[..], Sort(was[..i]), was);
      InsertBack(a, i);
      SortStep(was, i);
      InsertLength(Sort(was[..i]), was[i]);
    }
    SortAll(was, a[..]);
  }

  lemma SortNone(xs: seq<CaseDelta>)
    ensures Sort(xs[..0]) == [] && Sort(xs[..0]) + xs[0..] == xs
  {
  }

  lemma {:induction false} SortAll(xs: seq<CaseDelta>, now: seq<CaseDelta>)
    requires now == Sort(xs[..|xs|]) + xs[|xs|..]
    ensures now == Sort(xs)
  {
    hide Sort;
    assert xs[..|xs|] == xs;
  }

  lemma SortStep(xs: seq<CaseDelta>, i: nat)
    requires i < |xs|
    ensures Sort(xs[..i + 1]) == Insert(Sort(xs[..i]), xs[i])
  {
    hide Insert;
    assert xs[..i + 1][..i] == xs[..i];
  }

  lemma {:induction false} InsertLength(xs: seq<CaseDelta>, x: CaseDelta)
    ensures |Insert(xs, x)| == |xs| + 1
    decreases |xs|
  {
    if xs != [] && Before(x.key, xs[|xs| - 1].key) { InsertLength(xs[..|xs| - 1], x); }
  }

  lemma {:induction false} InsertElements(xs: seq<CaseDelta>, x: CaseDelta)
    ensures multiset(Insert(xs, x)) == multiset(xs) + multiset{x}
    decreases |xs|
  {
    hide Before;
    if xs != [] && Before(x.key, xs[|xs| - 1].key) {
      InsertElements(xs[..|xs| - 1], x);
      assert xs == xs[..|xs| - 1] + [xs[|xs| - 1]];
    }
  }

  lemma {:induction false} SortElements(xs: seq<CaseDelta>)
    ensures multiset(Sort(xs)) == multiset(xs)
    decreases |xs|
  {
    hide Insert;
    if xs != [] {
      SortElements(xs[..|xs| - 1]);
      InsertElements(Sort(xs[..|xs| - 1]), xs[|xs| - 1]);
      assert xs == xs[..|xs| - 1] + [xs[|xs| - 1]];
    }
  }

  ghost predicate Ordered(xs: seq<CaseDelta>) {
    forall i, j :: 0 <= i < j < |xs| ==> !Before(xs[j].key, xs[i].key)
  }

  /** Everything inserted into is at most `bound`, and so is the result. */
  lemma {:induction false} InsertBound(xs: seq<CaseDelta>, x: CaseDelta, bound: Key)
    requires forall i :: 0 <= i < |xs| ==> !Before(bound, xs[i].key)
    requires !Before(bound, x.key)
    ensures forall i :: 0 <= i < |Insert(xs, x)| ==> !Before(bound, Insert(xs, x)[i].key)
    decreases |xs|
  {
    hide Before;
    if xs != [] && Before(x.key, xs[|xs| - 1].key) { InsertBound(xs[..|xs| - 1], x, bound); }
  }

  lemma {:induction false} InsertOrdered(xs: seq<CaseDelta>, x: CaseDelta)
    requires Ordered(xs)
    ensures Ordered(Insert(xs, x))
    decreases |xs|
  {
    hide Before;
    if xs != [] {
      var n := |xs| - 1;
      var last := xs[n];
      if Before(x.key, last.key) {
        InsertOrdered(xs[..n], x);
        BeforeTotal(x.key, last.key);
        InsertBound(xs[..n], x, last.key);
      } else {
        forall i | 0 <= i < |xs| ensures !Before(x.key, xs[i].key) {
          if Before(x.key, xs[i].key) && i < n { NotBeforeLast(x.key, xs[i].key, last.key); }
        }
      }
    }
  }

  lemma NotBeforeLast(x: Key, y: Key, last: Key)
    requires Before(x, y) && !Before(last, y)
    ensures Before(x, last)
  {
    BeforeTotal(y, last);
    if y != last { BeforeTrans(x, y, last); }
  }

  lemma {:induction false} SortInOrder(xs: seq<CaseDelta>)
    ensures Ordered(Sort(xs))
    decreases |xs|
  {
    hide Insert;
    if xs != [] {
      SortInOrder(xs[..|xs| - 1]);
      InsertOrdered(Sort(xs[..|xs| - 1]), xs[|xs| - 1]);
    }
  }

  /** The arrangement is by case, then by scorer, character by character. */
  lemma {:induction false} SortOrdered(xs: seq<CaseDelta>)
    ensures Ordered(Sort(xs))
    ensures forall i, j :: 0 <= i < j < |Sort(xs)| ==> !Precedes(Sort(xs)[j].key, Sort(xs)[i].key)
  {
    SortInOrder(xs);
    hide Sort, Before, Precedes;
    forall i, j | 0 <= i < j < |Sort(xs)| ensures !Precedes(Sort(xs)[j].key, Sort(xs)[i].key) {
      BeforeIs(Sort(xs)[j].key, Sort(xs)[i].key);
    }
  }

  function Only(k: Key, xs: seq<CaseDelta>): seq<CaseDelta> {
    if xs == [] then []
    else Only(k, xs[..|xs| - 1]) + if xs[|xs| - 1].key == k then [xs[|xs| - 1]] else []
  }

  lemma {:induction false} OnlyStep(k: Key, xs: seq<CaseDelta>, x: CaseDelta)
    ensures Only(k, xs + [x]) == Only(k, xs) + if x.key == k then [x] else []
  {
    assert (xs + [x])[..|xs|] == xs;
  }

  lemma {:induction false} InsertStable(k: Key, xs: seq<CaseDelta>, x: CaseDelta)
    ensures Only(k, Insert(xs, x)) == Only(k, xs + [x])
    decreases |xs|
  {
    hide Before, Only;
    if xs != [] && Before(x.key, xs[|xs| - 1].key) {
      var front, last := xs[..|xs| - 1], xs[|xs| - 1];
      assert front + [last] == xs;
      BeforeTotal(x.key, last.key);
      InsertStable(k, front, x);
      OnlyStep(k, Insert(front, x), last);
      OnlyStep(k, front, x);
      OnlyStep(k, front, last);
      OnlyStep(k, xs, x);
    }
  }

  /** The sort is stable: deltas of one case and scorer keep their order. */
  lemma {:induction false} SortStable(k: Key, xs: seq<CaseDelta>)
    ensures Only(k, Sort(xs)) == Only(k, xs)
    decreases |xs|
  {
    hide Insert, Only;
    if xs != [] {
      var front, last := xs[..|xs| - 1], xs[|xs| - 1];
      SortStable(k, front);
      InsertStable(k, Sort(front), last);
      OnlyStep(k, Sort(front), last);
      OnlyStep(k, front, last);
      assert front + [last] == xs;
    }
  }

  // ----- Uniqueness -----

  ghost predicate Increasing(ks: seq<Key>) {
    forall i, j :: 0 <= i < j < |ks| ==> Before(ks[i], ks[j])
  }

  lemma LastIsLargest(ks: seq<Key>, k: Key)
    requires Increasing(ks) && k in ks
    ensures k == ks[|ks| - 1] || Before(k, ks[|ks| - 1])
  {
    var i :| 0 <= i < |ks| && ks[i] == k;
  }

  lemma SameLast(xs: seq<Key>, ys: seq<Key>)
    requires Increasing(xs) && Increasing(ys) && xs != [] && ys != []
    requires forall k :: k in xs <==> k in ys
    ensures xs[|xs| - 1] == ys[|ys| - 1]
  {
    hide Before, Increasing;
    var m, n := xs[|xs| - 1], ys[|ys| - 1];
    assert m in xs && n in ys;
    LastIsLargest(ys, m);
    LastIsLargest(xs, n);
    BeforeTotal(m, n);
  }

  lemma WithoutLast(xs: seq<Key>, k: Key)
    requires Increasing(xs) && xs != []
    ensures k in xs[..|xs| - 1] <==> k in xs && k != xs[|xs| - 1]
    ensures Increasing(xs[..|xs| - 1])
  {
    hide Before;
    var n := |xs| - 1;
    if k in xs[..n] {
      var i :| 0 <= i < n && xs[i] == k;
      BeforeTotal(xs[i], xs[n]);
    }
    if k in xs && k != xs[n] {
      var i :| 0 <= i <= n && xs[i] == k;
      assert xs[..n][i] == k;
    }
  }

  /** There is only one increasing sequence of a given set of keys. */
  lemma {:induction false} IncreasingUnique(xs: seq<Key>, ys: seq<Key>)
    requires Increasing(xs) && Increasing(ys)
    requires forall k :: k in xs <==> k in ys
    ensures xs == ys
    decreases |xs|
  {
    hide Before, Increasing;
    assert ys == [] || ys[0] in ys;
    assert xs == [] || xs[0] in xs;
    if xs != [] {
      SameLast(xs, ys);
      var m, n := |xs| - 1, |ys| - 1;
      forall k ensures k in xs[..m] <==> k in ys[..n] {
        WithoutLast(xs, k);
        WithoutLast(ys, k);
      }
      WithoutLast(xs, xs[m]);
      WithoutLast(ys, ys[n]);
      IncreasingUnique(xs[..m], ys[..n]);
      assert xs == xs[..m] + [xs[m]] && ys == ys[..n] + [ys[n]];
    }
  }

  lemma {:induction false} OnlyHas(k: Key, xs: seq<CaseDelta>)
    ensures Only(k, xs) != [] <==> exists i :: 0 <= i < |xs| && xs[i].key == k
    decreases |xs|
  {
    if xs != [] {
      var n := |xs| - 1;
      OnlyHas(k, xs[..n]);
      if Only(k, xs) != [] && xs[n].key != k {
        var i :| 0 <= i < n && xs[..n][i].key == k;
        assert xs[i].key == k;
      }
      if i :| 0 <= i < |xs| && xs[i].key == k && xs[n].key != k { assert xs[..n][i].key == k; }
    }
  }

  ghost predicate SameByKey(xs: seq<CaseDelta>, ys: seq<CaseDelta>) {
    forall k :: Only(k, xs) == Only(k, ys)
  }

  /** Nothing in an ordered list comes after its last key. */
  lemma LastKey(xs: seq<CaseDelta>, ys: seq<CaseDelta>)
    requires Ordered(ys) && SameByKey(xs, ys) && xs != []
    ensures ys != [] && !Before(ys[|ys| - 1].key, xs[|xs| - 1].key)
  {
    hide Only, Before;
    var k := xs[|xs| - 1].key;
    OnlyHas(k, xs);
    OnlyHas(k, ys);
    var i :| 0 <= i < |ys| && ys[i].key == k;
    BeforeTotal(k, k);
  }

  lemma {:induction false} OnlyLast(k: Key, xs: seq<CaseDelta>)
    requires xs != []
    ensures Only(k, xs) == Only(k, xs[..|xs| - 1]) + if xs[|xs| - 1].key == k then [xs[|xs| - 1]] else []
  {
  }

  lemma SameLastDelta(xs: seq<CaseDelta>, ys: seq<CaseDelta>)
    requires Ordered(xs) && Ordered(ys) && SameByKey(xs, ys) && xs != []
    ensures ys != [] && xs[|xs| - 1] == ys[|ys| - 1] && SameByKey(xs[..|xs| - 1], ys[..|ys| - 1])
  {
    hide Only, Before;
    LastKey(xs, ys);
    LastKey(ys, xs);
    var a, b := xs[|xs| - 1], ys[|ys| - 1];
    BeforeTotal(a.key, b.key);
    OnlyLast(a.key, xs);
    OnlyLast(a.key, ys);
    var whole := Only(a.key, xs);
    assert whole[|whole| - 1] == a && whole[|whole| - 1] == b;
    var front, back := xs[..|xs| - 1], ys[..|ys| - 1];
    forall k ensures Only(k, front) == Only(k, back) {
      OnlyLast(k, xs);
      OnlyLast(k, ys);
      SameFront(Only(k, front), Only(k, back), if a.key == k then [a] else []);
    }
  }

  lemma SameFront(xs: seq<CaseDelta>, ys: seq<CaseDelta>, more: seq<CaseDelta>)
    requires xs + more == ys + more
    ensures xs == ys
  {
    assert |xs + more| == |ys + more|;
    assert xs == (xs + more)[..|xs|] && ys == (ys + more)[..|ys|];
  }

  /** There is only one ordered arrangement that keeps the order of equal keys. */
  lemma {:induction false} StableUnique(xs: seq<CaseDelta>, ys: seq<CaseDelta>)
    requires Ordered(xs) && Ordered(ys) && SameByKey(xs, ys)
    ensures xs == ys
    decreases |xs|
  {
    hide Only, Before;
    if xs == [] {
      if ys != [] { LastKey(ys, xs); }
    } else {
      SameLastDelta(xs, ys);
      StableUnique(xs[..|xs| - 1], ys[..|ys| - 1]);
      assert xs == xs[..|xs| - 1] + [xs[|xs| - 1]] && ys == ys[..|ys| - 1] + [ys[|ys| - 1]];
    }
  }

  /** Whatever stable sort is used, it gives this arrangement. */
  lemma {:induction false} AnyStableSort(xs: seq<CaseDelta>, out: seq<CaseDelta>)
    requires Ordered(out) && SameByKey(out, xs)
    ensures out == Sort(xs)
  {
    hide Only, Sort, Ordered;
    SortOrdered(xs);
    forall k ensures Only(k, out) == Only(k, Sort(xs)) { SortStable(k, xs); }
    StableUnique(out, Sort(xs));
  }
}
