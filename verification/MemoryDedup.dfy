/**
 The bounded in-process deduplicator (channels/dedup.go). Its simple reading is a
 history: the sequence of keys it has accepted. `Seen` is true exactly for the keys
 among the last `capacity` of them.
 */
module MemoryDedup {
  import opened Rearranged

  /** The last `n` entries of a history. */
  function Last<T>(n: nat, s: seq<T>): (r: seq<T>)
    ensures |r| == if |s| < n then |s| else n
  {
    if |s| <= n then s else s[|s| - n..]
  }

  lemma InLast<T>(n: nat, s: seq<T>, i: nat)
    requires |s| - n <= i < |s|
    ensures s[i] in Last(n, s)
  {
    assert s[i] == Last(n, s)[i - (|s| - |Last(n, s)|)];
  }

  /** One delivery in the simple reading: accepted unless among the last `capacity` accepted keys. */
  function Accept(capacity: nat, accepted: seq<string>, key: string): seq<string> {
    if key in Last(capacity, accepted) then accepted else accepted + [key]
  }

  function Replay(capacity: nat, keys: seq<string>): seq<string> {
    if keys == [] then [] else Accept(capacity, Replay(capacity, keys[..|keys| - 1]), keys[|keys| - 1])
  }

  /** Each accepted key was absent from the window before it. */
  predicate Windowed(capacity: nat, accepted: seq<string>) {
    forall j :: 0 <= j < |accepted| ==> accepted[j] !in Last(capacity, accepted[..j])
  }

  lemma AcceptWindowed(capacity: nat, accepted: seq<string>, key: string)
    requires Windowed(capacity, accepted)
    ensures Windowed(capacity, Accept(capacity, accepted, key))
  {
    var next := Accept(capacity, accepted, key);
    if next != accepted {
      forall j | 0 <= j < |next|
        ensures next[j] !in Last(capacity, next[..j])
      {
        assert next[..j] == accepted[..j];
        if j == |accepted| { assert accepted[..j] == accepted; }
      }
    }
  }

  lemma {:induction false} ReplayWindowed(capacity: nat, keys: seq<string>)
    ensures Windowed(capacity, Replay(capacity, keys))
  {
    if keys != [] {
      ReplayWindowed(capacity, keys[..|keys| - 1]);
      AcceptWindowed(capacity, Replay(capacity, keys[..|keys| - 1]), keys[|keys| - 1]);
    }
  }

  /** The window holds no key twice. */
  lemma WindowDistinct(capacity: nat, accepted: seq<string>)
    requires Windowed(capacity, accepted)
    ensures Distinct(Last(capacity, accepted))
  {
    var w := Last(capacity, accepted);
    var offset := |accepted| - |w|;
    LastFrom(capacity, accepted);
    hide Last, Windowed;
    forall i, j | 0 <= i < j < |w|
      ensures w[i] != w[j]
    {
      Apart(capacity, accepted, offset + i, offset + j);
    }
  }

  /** Keys accepted within one window of each other differ. */
  lemma Apart(capacity: nat, accepted: seq<string>, i: nat, j: nat)
    requires Windowed(capacity, accepted) && i < j < |accepted| && j - i <= capacity
    ensures accepted[i] != accepted[j]
  {
    hide Last;
    InLast(capacity, accepted[..j], i);
  }

  lemma LastFrom<T>(n: nat, s: seq<T>)
    ensures forall i :: 0 <= i < |Last(n, s)| ==> Last(n, s)[i] == s[|s| - |Last(n, s)| + i]
  {
  }

  /**
   For every sequence of deliveries: between two acceptances of one key lie at least
   `capacity` acceptances of other keys, the last `capacity` of them pairwise distinct.
   */
  lemma {:induction false} Redelivery(capacity: nat, keys: seq<string>, i: nat, j: nat)
    requires i < j < |Replay(capacity, keys)|
    requires Replay(capacity, keys)[i] == Replay(capacity, keys)[j]
    ensures var accepted := Replay(capacity, keys);
            && j - i > capacity
            && Distinct(accepted[j - capacity..j])
            && accepted[i] !in accepted[j - capacity..j]
  {
    var accepted := Replay(capacity, keys);
    ReplayWindowed(capacity, keys);
    assert Windowed(capacity, accepted[..j]) by {
      forall k | 0 <= k < j
        ensures accepted[..j][k] !in Last(capacity, accepted[..j][..k])
      {
        assert accepted[..j][..k] == accepted[..k];
      }
    }
    WindowDistinct(capacity, accepted[..j]);
    var w := Last(capacity, accepted[..j]);
    assert accepted[j] !in w;
    if j - i <= capacity {
      InLast(capacity, accepted[..j], i);
      assert false;
    }
    assert w == accepted[j - capacity..j];
  }

  /** A list element: its own identity and the key it holds. */
  datatype Element = Element(serial: nat, key: string)

  function Keys(order: seq<Element>): (r: seq<string>)
    ensures |r| == |order|
    ensures forall i :: 0 <= i < |order| ==> r[i] == order[i].key
  {
    seq(|order|, i requires 0 <= i < |order| => order[i].key)
  }

  /** The map holds exactly the elements of the list, under their keys, and no key twice. */
  ghost predicate Indexed(order: seq<Element>, seen: map<string, Element>) {
    && Distinct(Keys(order))
    && (forall i :: 0 <= i < |order| ==> order[i].key in seen && seen[order[i].key] == order[i])
    && (forall key :: key in seen ==> seen[key] in order && seen[key].key == key)
  }

  lemma {:induction false} IndexedSize(order: seq<Element>, seen: map<string, Element>)
    requires Indexed(order, seen)
    ensures |seen| == |order|
    decreases |order|
  {
    if order == [] {
      assert seen.Keys == {};
    } else {
      EvictOldest(order, seen);
      IndexedSize(order[1..], seen - {order[0].key});
      assert seen.Keys == (seen - {order[0].key}).Keys + {order[0].key};
    }
  }

  /** Removing the front element from both keeps them in step. */
  lemma EvictOldest(order: seq<Element>, seen: map<string, Element>)
    requires Indexed(order, seen) && order != []
    ensures Indexed(order[1..], seen - {order[0].key})
  {
    var oldest, rest := order[0], order[1..];
    assert Keys(rest) == Keys(order)[1..];
    forall i | 0 <= i < |rest|
      ensures rest[i].key != oldest.key
    {
      assert Keys(order)[0] != Keys(order)[i + 1];
    }
  }

  /** Adding a new key at the back of both keeps them in step. */
  lemma PushNew(order: seq<Element>, seen: map<string, Element>, e: Element)
    requires Indexed(order, seen) && e.key !in seen
    ensures Indexed(order + [e], seen[e.key := e])
    ensures Keys(order + [e]) == Keys(order) + [e.key]
  {
    var full := order + [e];
    assert forall i :: 0 <= i < |order| ==> full[i] == order[i];
    assert full[|order|] == e;
  }

  lemma SeenIsListed(order: seq<Element>, seen: map<string, Element>, key: string)
    requires Indexed(order, seen)
    ensures key in seen <==> key in Keys(order)
  {
    if key in seen {
      var i :| 0 <= i < |order| && order[i] == seen[key];
      assert Keys(order)[i] == key;
    }
  }

  lemma {:induction false} ReplayNext(capacity: nat, keys: seq<string>, key: string)
    ensures Replay(capacity, keys + [key]) == Accept(capacity, Replay(capacity, keys), key)
  {
    assert (keys + [key])[..|keys + [key]| - 1] == keys;
  }

  /** Pushing a key and dropping the front while over capacity slides the window. */
  lemma Slide(capacity: nat, history: seq<string>, key: string, order: seq<Element>, e: Element, kept: seq<Element>)
    requires Keys(order) == Last(capacity, history) && e.key == key
    requires (kept == order + [e] && |kept| <= capacity) || (kept == (order + [e])[1..] && |kept| == capacity)
    ensures Keys(kept) == Last(capacity, history + [key])
  {
    var full := order + [e];
    assert Keys(full) == Last(capacity, history) + [key];
    if |kept| == |full| {
      assert |history| < capacity;
    } else {
      assert Keys(kept) == Keys(full)[1..];
    }
  }

  class MemoryDeduplicator {
    const capacity: nat
    var order: seq<Element>
    var seen: map<string, Element>
    var pushed: nat
    ghost var delivered: seq<string>

    /** List and map hold the same elements, one per key, and the list is the window of the history. */
    ghost predicate Valid()
      reads this
    {
      && capacity >= 1
      && Keys(order) == Last(capacity, Accepted())
      && Indexed(order, seen)
    }

    /** The keys accepted so far, by the simple reading. */
    ghost function Accepted(): seq<string>
      reads this
    {
      Replay(capacity, delivered)
    }

    constructor (capacity: int)
      ensures Valid() && delivered == [] && this.capacity == if capacity < 1 then 1 else capacity
    {
      this.capacity := if capacity < 1 then 1 else capacity;
      order, seen, pushed, delivered := [], map[], 0, [];
    }

    method Seen(key: string) returns (duplicate: bool)
      requires Valid()
      modifies this
      ensures Valid() && delivered == old(delivered) + [key]
      ensures duplicate <==> key in Last(capacity, old(Accepted()))
      ensures Accepted() == if duplicate then old(Accepted()) else old(Accepted()) + [key]
      ensures |seen| == |order| <= capacity
    {
      SeenIsListed(order, seen, key);
      ReplayNext(capacity, delivered, key);
      ghost var history, window := Accepted(), order;
      delivered := delivered + [key];
      if key in seen {
        IndexedSize(order, seen);
        return true;
      }
      var e := Element(pushed, key);
      PushNew(order, seen, e);
      order, seen, pushed := order + [e], seen[key := e], pushed + 1;
      while |order| > capacity
        invariant Indexed(order, seen) && Accepted() == history + [key] && delivered == old(delivered) + [key]
        invariant order == window + [e] || (order == (window + [e])[1..] && |order| == capacity)
      {
        var oldest := order[0];
        EvictOldest(order, seen);
        order := order[1..];
        seen := seen - {oldest.key};
      }
      Slide(capacity, history, key, window, e, order);
      IndexedSize(order, seen);
      return false;
    }
  }
}
