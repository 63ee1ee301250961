/**
 The observer's memory of finished runs (obsv/observer.go): a map from run ID to the
 occurrences seen under it, and a list that orders all occurrences for eviction.
 */
module TraceIndex {
  import opened Rearranged

  datatype Ref = Ref(traceId: string, runSpanId: string)

  datatype Entry = Entry(runId: string, ref: Ref)

  datatype Index = Index(traces: map<string, seq<Ref>>, order: seq<Entry>)

  const TRACE_MEMORY_LIMIT := 4096

  function Occurrences(traces: map<string, seq<Ref>>, runId: string): seq<Ref> {
    if runId in traces then traces[runId] else []
  }

  /** `refs` without `x`. */
  function Without(refs: seq<Ref>, x: Ref): (r: seq<Ref>)
    ensures forall y :: y in r <==> y in refs && y != x
    ensures Distinct(refs) ==> Distinct(r)
  {
    if refs == [] then [] else
      var rest := Without(refs[1..], x);
      assert Distinct(refs) ==> Distinct(refs[1..]) && refs[0] !in refs[1..];
      if refs[0] == x then rest else [refs[0]] + rest
  }

  function Evict(traces: map<string, seq<Ref>>, oldest: Entry): map<string, seq<Ref>> {
    var remaining := Occurrences(traces, oldest.runId);
    var pruned := Without(remaining, oldest.ref);
    if remaining == [] then traces
    else if pruned == [] then traces - {oldest.runId}
    else traces[oldest.runId := pruned]
  }

  /** A call that records something: both identifiers are set and the occurrence is not yet in the map. */
  predicate Records(ix: Index, e: Entry) {
    e.runId != "" && e.ref.traceId != "" && e.ref !in Occurrences(ix.traces, e.runId)
  }

  /** rememberTrace: the occurrences are read before the eviction and written back after it. */
  function Remember(limit: nat, ix: Index, e: Entry): Index
    requires limit > 0
  {
    if !Records(ix, e) then ix else
      var occurrences := Occurrences(ix.traces, e.runId);
      var full := |ix.order| >= limit;
      var traces := if full then Evict(ix.traces, ix.order[0]) else ix.traces;
      var order := if full then ix.order[1..] else ix.order;
      Index(traces[e.runId := occurrences + [e.ref]], order + [e])
  }

  function Replay(limit: nat, entries: seq<Entry>): Index
    requires limit > 0
  {
    if entries == [] then Index(map[], [])
    else Remember(limit, Replay(limit, entries[..|entries| - 1]), entries[|entries| - 1])
  }

  predicate Holds(ix: Index, e: Entry) {
    e.ref in Occurrences(ix.traces, e.runId)
  }

  /** What every run keeps: the list is duplicate-free, bounded and contained in the map. */
  ghost predicate Sound(limit: nat, ix: Index) {
    && Distinct(ix.order) && |ix.order| <= limit
    && (forall e :: e in ix.order ==> Holds(ix, e))
    && (forall runId :: runId in ix.traces ==> Distinct(ix.traces[runId]))
  }

  /** List and map hold the same occurrences. */
  ghost predicate Agree(ix: Index) {
    forall e :: Holds(ix, e) <==> e in ix.order
  }

  /** The call evicts an occurrence of the very run it records. */
  predicate Hits(limit: nat, ix: Index, e: Entry)
    requires limit > 0
  {
    Records(ix, e) && |ix.order| >= limit && ix.order[0].runId == e.runId
  }

  /** What a recording call leaves in the map. */
  lemma Recorded(limit: nat, ix: Index, e: Entry, x: Entry)
    requires limit > 0 && Records(ix, e)
    ensures Holds(Remember(limit, ix, e), x) <==>
      || x == e
      || (Holds(ix, x) && (x.runId == e.runId || |ix.order| < limit || x != ix.order[0]))
  {
  }

  lemma Ordered(limit: nat, ix: Index, e: Entry, x: Entry)
    requires limit > 0 && Sound(limit, ix) && Records(ix, e)
    ensures x in Remember(limit, ix, e).order <==> x == e || (x in ix.order && (|ix.order| < limit || x != ix.order[0]))
  {
    if |ix.order| >= limit {
      assert ix.order == [ix.order[0]] + ix.order[1..];
    }
  }

  lemma RememberSound(limit: nat, ix: Index, e: Entry)
    requires limit > 0 && Sound(limit, ix)
    ensures Sound(limit, Remember(limit, ix, e))
  {
    var ix' := Remember(limit, ix, e);
    if Records(ix, e) {
      assert e !in ix.order;
      forall x | x in ix'.order
        ensures Holds(ix', x)
      {
        Ordered(limit, ix, e, x);
        Recorded(limit, ix, e, x);
      }
    }
  }

  /** Agreement after one call: exactly if there was agreement before and the call hits nobody of its own run. */
  lemma AgreeStep(limit: nat, ix: Index, e: Entry)
    requires limit > 0 && Sound(limit, ix)
    ensures Agree(Remember(limit, ix, e)) <==> Agree(ix) && !Hits(limit, ix, e)
  {
    var ix' := Remember(limit, ix, e);
    if Records(ix, e) {
      forall x
        ensures Holds(ix', x) <==> x == e || (Holds(ix, x) && (x.runId == e.runId || |ix.order| < limit || x != ix.order[0]))
        ensures x in ix'.order <==> x == e || (x in ix.order && (|ix.order| < limit || x != ix.order[0]))
      {
        Recorded(limit, ix, e, x);
        Ordered(limit, ix, e, x);
      }
      if Hits(limit, ix, e) {
        assert ix.order[0] in ix.order && Holds(ix, ix.order[0]);
        assert Holds(ix', ix.order[0]) && ix.order[0] !in ix'.order;
      }
      if !Agree(ix) {
        var x :| Holds(ix, x) && x !in ix.order;
        assert Holds(ix', x) && x !in ix'.order;
      }
    }
  }

  /** No call of the sequence evicted an occurrence of its own run. */
  ghost predicate Unhit(limit: nat, entries: seq<Entry>)
    requires limit > 0
  {
    forall k :: 0 <= k < |entries| ==> !Hits(limit, Replay(limit, entries[..k]), entries[k])
  }

  /**
   For every sequence of calls: the list is duplicate-free, bounded and contained in the
   map, and list and map hold exactly the same occurrences if and only if no call ever
   evicted an occurrence of the run it was recording. Once lost, agreement is lost for good.
   */
  lemma {:induction false} IndexHistory(limit: nat, entries: seq<Entry>)
    requires limit > 0
    ensures Sound(limit, Replay(limit, entries))
    ensures Agree(Replay(limit, entries)) <==> Unhit(limit, entries)
    decreases |entries|
  {
    if entries != [] {
      var n := |entries| - 1;
      var before := entries[..n];
      IndexHistory(limit, before);
      RememberSound(limit, Replay(limit, before), entries[n]);
      AgreeStep(limit, Replay(limit, before), entries[n]);
      forall k | 0 <= k < n
        ensures before[..k] == entries[..k] && before[k] == entries[k]
      {
      }
      assert Unhit(limit, entries) <==> Unhit(limit, before) && !Hits(limit, Replay(limit, before), entries[n]);
    }
  }

  // ----- What is remembered -----

  /** The calls that recorded something, in order. */
  function Recordings(limit: nat, entries: seq<Entry>): seq<Entry>
    requires limit > 0
  {
    if entries == [] then []
    else
      var n := |entries| - 1;
      Recordings(limit, entries[..n]) + if Records(Replay(limit, entries[..n]), entries[n]) then [entries[n]] else []
  }

  /** The list holds the latest recordings, oldest first, as many as the limit allows. */
  lemma {:induction false} LatestKept(limit: nat, entries: seq<Entry>)
    requires limit > 0
    ensures var all := Recordings(limit, entries);
            Replay(limit, entries).order == if |all| <= limit then all else all[|all| - limit..]
    decreases |entries|
  {
    if entries != [] {
      hide Records, Evict;
      var n := |entries| - 1;
      LatestKept(limit, entries[..n]);
      var all, order := Recordings(limit, entries[..n]), Replay(limit, entries[..n]).order;
      if |all| >= limit { assert (all + [entries[n]])[|all| + 1 - limit..] == all[|all| - limit..][1..] + [entries[n]]; }
    }
  }

  /** Nothing without both a run and a trace is in the index. */
  lemma {:induction false} NoneWithoutIds(limit: nat, entries: seq<Entry>, x: Entry)
    requires limit > 0 && Holds(Replay(limit, entries), x)
    ensures x.runId != "" && x.ref.traceId != ""
    decreases |entries|
  {
    if entries != [] {
      var n := |entries| - 1;
      var ix, e := Replay(limit, entries[..n]), entries[n];
      if Records(ix, e) { Recorded(limit, ix, e, x); }
      if x != e || !Records(ix, e) { NoneWithoutIds(limit, entries[..n], x); }
    }
  }

  /** A call's occurrence is in the index afterwards exactly if it names a run and a trace. */
  lemma {:induction false} Remembered(limit: nat, entries: seq<Entry>)
    requires limit > 0 && entries != []
    ensures var e := entries[|entries| - 1]; Holds(Replay(limit, entries), e) <==> e.runId != "" && e.ref.traceId != ""
  {
    var n := |entries| - 1;
    var ix, e := Replay(limit, entries[..n]), entries[n];
    if Records(ix, e) { Recorded(limit, ix, e, e); }
    if Holds(Replay(limit, entries), e) { NoneWithoutIds(limit, entries, e); }
  }

  // ----- The failing family -----

  /** `n` different occurrences of one run. */
  function Repeats(n: nat): (r: seq<Entry>)
    ensures |r| == n
  {
    if n == 0 then [] else Repeats(n - 1) + [Entry("run", Ref(seq(n, _ => '1'), ""))]
  }

  lemma {:induction false} RepeatsFit(limit: nat, n: nat)
    requires 0 < limit && n <= limit
    ensures var ix := Replay(limit, Repeats(n));
            && ix.order == Repeats(n)
            && |Occurrences(ix.traces, "run")| == n
            && (forall x :: x in Occurrences(ix.traces, "run") ==> |x.traceId| <= n)
            && (forall e :: e in ix.order ==> e.runId == "run")
    decreases n
  {
    if n > 0 {
      RepeatsFit(limit, n - 1);
      assert Repeats(n)[..n - 1] == Repeats(n - 1);
    }
  }

  /** A run that keeps occurring: beyond the limit every further occurrence hits one of its own. */
  lemma {:induction false} RepeatsPile(limit: nat, n: nat)
    requires 0 < limit <= n
    ensures var ix := Replay(limit, Repeats(n));
            && |ix.order| == limit
            && |Occurrences(ix.traces, "run")| == n
            && (forall x :: x in Occurrences(ix.traces, "run") ==> |x.traceId| <= n)
            && (forall e :: e in ix.order ==> e.runId == "run")
    decreases n
  {
    if n == limit {
      RepeatsFit(limit, n);
    } else {
      RepeatsPile(limit, n - 1);
      assert Repeats(n)[..n - 1] == Repeats(n - 1);
      var ix, e := Replay(limit, Repeats(n - 1)), Repeats(n)[n - 1];
      assert e.ref !in Occurrences(ix.traces, "run");
      assert ix.order == [ix.order[0]] + ix.order[1..];
    }
  }

  /**
   One run that occurs more often than the limit: list and map disagree, the list stays at the
   limit, and the map holds every occurrence there ever was. This holds of every limit, so of 4096,
   and of every number of occurrences: the map grows without bound.
   */
  lemma {:induction false} SameRunDisagrees(limit: nat, n: nat)
    requires 0 < limit < n
    ensures var ix := Replay(limit, Repeats(n));
            !Agree(ix) && |ix.order| == limit && |Occurrences(ix.traces, "run")| == n
  {
    RepeatsPile(limit, n);
    var ix := Replay(limit, Repeats(n));
    IndexHistory(limit, Repeats(n));
    hide Replay;
    if Agree(ix) { AgreeCounts(limit, ix); }
  }

  /** Everything the map holds. */
  function Everything(ix: Index): set<Entry> {
    set runId, ref | runId in ix.traces && ref in ix.traces[runId] :: Entry(runId, ref)
  }

  lemma InEverything(ix: Index, e: Entry)
    ensures e in Everything(ix) <==> Holds(ix, e)
  {
  }

  lemma {:induction false} AsSet<T>(xs: seq<T>)
    requires Distinct(xs)
    ensures |set x | x in xs| == |xs|
    decreases |xs|
  {
    if xs != [] {
      var n := |xs| - 1;
      AsSet(xs[..n]);
      assert (set x | x in xs) == (set x | x in xs[..n]) + {xs[n]};
    }
  }

  /** In agreement, one run cannot hold more than the list. */
  lemma AgreeCounts(limit: nat, ix: Index)
    requires Sound(limit, ix) && Agree(ix)
    ensures |Occurrences(ix.traces, "run")| <= |ix.order|
  {
    var refs := Occurrences(ix.traces, "run");
    AsSet(refs);
    AsSet(ix.order);
    var here := set x | x in refs :: Entry("run", x);
    SameSize(refs);
    assert here <= (set e | e in ix.order) by {
      forall e | e in here ensures e in ix.order { assert Holds(ix, e); }
    }
    Subset(here, set e | e in ix.order);
  }

  lemma {:induction false} SameSize(refs: seq<Ref>)
    requires Distinct(refs)
    ensures |set x | x in refs :: Entry("run", x)| == |refs|
    decreases |refs|
  {
    if refs != [] {
      var n := |refs| - 1;
      SameSize(refs[..n]);
      assert (set x | x in refs :: Entry("run", x)) == (set x | x in refs[..n] :: Entry("run", x)) + {Entry("run", refs[n])};
    }
  }

  lemma Subset<T>(a: set<T>, b: set<T>)
    requires a <= b
    ensures |a| <= |b|
  {
    assert b == a + (b - a);
  }

  /** How many calls evicted an occurrence of their own run. */
  function HitCount(limit: nat, entries: seq<Entry>): nat
    requires limit > 0
  {
    if entries == [] then 0
    else
      var before := entries[..|entries| - 1];
      HitCount(limit, before) + if Hits(limit, Replay(limit, before), entries[|entries| - 1]) then 1 else 0
  }

  lemma OrderSize(limit: nat, ix: Index, e: Entry)
    requires limit > 0 && Records(ix, e)
    ensures |Remember(limit, ix, e).order| == if |ix.order| >= limit then |ix.order| else |ix.order| + 1
  {
  }

  /** What a recording call leaves in the map, as a set. */
  lemma EverythingAfter(limit: nat, ix: Index, e: Entry)
    requires limit > 0 && Records(ix, e)
    ensures Everything(Remember(limit, ix, e))
         == (if |ix.order| >= limit && ix.order[0].runId != e.runId then Everything(ix) - {ix.order[0]} else Everything(ix)) + {e}
  {
    hide Everything, Holds, Remember, Records;
    var ix' := Remember(limit, ix, e);
    forall x
      ensures x in Everything(ix')
         <==> x == e || (x in Everything(ix) && (x.runId == e.runId || |ix.order| < limit || x != ix.order[0]))
    {
      InEverything(ix', x);
      InEverything(ix, x);
      Recorded(limit, ix, e, x);
    }
  }

  lemma GrowStep(limit: nat, ix: Index, e: Entry)
    requires limit > 0 && Sound(limit, ix)
    ensures var ix' := Remember(limit, ix, e);
            |Everything(ix')| - |ix'.order| == |Everything(ix)| - |ix.order| + if Hits(limit, ix, e) then 1 else 0
  {
    if Records(ix, e) {
      EverythingAfter(limit, ix, e);
      OrderSize(limit, ix, e);
      InEverything(ix, e);
      hide Everything, Remember;
      if |ix.order| >= limit {
        assert ix.order[0] in ix.order;
        InEverything(ix, ix.order[0]);
      }
      hide Holds, Sound;
    }
  }

  /** The map holds exactly as many occurrences more than the list as there were such hits. */
  lemma {:induction false} MapOutgrowsList(limit: nat, entries: seq<Entry>)
    requires limit > 0
    ensures |Everything(Replay(limit, entries))| == |Replay(limit, entries).order| + HitCount(limit, entries)
    decreases |entries|
  {
    if entries != [] {
      var before := entries[..|entries| - 1];
      MapOutgrowsList(limit, before);
      IndexHistory(limit, before);
      hide Everything;
      GrowStep(limit, Replay(limit, before), entries[|entries| - 1]);
    }
  }

  // ----- Feedback correlation -----

  datatype Feedback = Feedback(runId: string, traceId: string, runSpanId: string)

  /** An occurrence that contradicts nothing the caller supplied. */
  predicate Consistent(f: Feedback, ref: Ref) {
    (f.traceId == "" || ref.traceId == f.traceId) && (f.runSpanId == "" || ref.runSpanId == f.runSpanId)
  }

  ghost predicate OnlyMatch(f: Feedback, refs: seq<Ref>, ref: Ref) {
    ref in refs && Consistent(f, ref) && forall other :: other in refs && Consistent(f, other) ==> other == ref
  }

  function Matches(f: Feedback, refs: seq<Ref>): seq<Ref> {
    if refs == [] then [] else
      var last := refs[|refs| - 1];
      Matches(f, refs[..|refs| - 1]) + if Consistent(f, last) then [last] else []
  }

  lemma {:induction false} MatchesAre(f: Feedback, refs: seq<Ref>)
    requires Distinct(refs)
    ensures forall x :: x in Matches(f, refs) <==> x in refs && Consistent(f, x)
    ensures Distinct(Matches(f, refs))
  {
    if refs != [] {
      var before, last := refs[..|refs| - 1], refs[|refs| - 1];
      MatchesAre(f, before);
      assert refs == before + [last] && last !in before;
    }
  }

  class TraceMemory {
    var traces: map<string, seq<Ref>>
    var traceLR: seq<Entry>
    ghost var entries: seq<Entry>

    function Value(): Index
      reads this
    {
      Index(traces, traceLR)
    }

    /** The memory is what the calls so far make of it. */
    ghost predicate Valid()
      reads this
    {
      Value() == Replay(TRACE_MEMORY_LIMIT, entries) && Sound(TRACE_MEMORY_LIMIT, Value())
    }

    constructor ()
      ensures Valid() && entries == []
    {
      traces, traceLR, entries := map[], [], [];
    }

    method RememberTrace(runId: string, traceId: string, runSpanId: string)
      requires Valid()
      modifies this
      ensures Valid() && entries == old(entries) + [Entry(runId, Ref(traceId, runSpanId))]
      ensures Value() == Remember(TRACE_MEMORY_LIMIT, old(Value()), Entry(runId, Ref(traceId, runSpanId)))
    {
      ghost var e := Entry(runId, Ref(traceId, runSpanId));
      entries := entries + [e];
      assert entries[..|entries| - 1] == old(entries);
      RememberSound(TRACE_MEMORY_LIMIT, Value(), e);
      if runId == "" || traceId == "" { return; }
      var occurrences := Occurrences(traces, runId);
      for i := 0 to |occurrences|
        modifies {}
        invariant e.ref !in occurrences[..i]
      {
        if occurrences[i].traceId == traceId && occurrences[i].runSpanId == runSpanId { return; }
      }
      assert occurrences[..|occurrences|] == occurrences;
      if |traceLR| >= TRACE_MEMORY_LIMIT {
        var oldest := traceLR[0];
        traceLR := traceLR[1..];
        var remaining := Occurrences(traces, oldest.runId);
        if |remaining| > 0 {
          var pruned := Prune(remaining, oldest.ref);
          if |pruned| == 0 {
            traces := traces - {oldest.runId};
          } else {
            traces := traces[oldest.runId := pruned];
          }
        }
      }
      var ref := Ref(traceId, runSpanId);
      traces := traces[runId := occurrences + [ref]];
      traceLR := traceLR + [Entry(runId, ref)];
    }

    /**
     resolveFeedbackRef: what is filled in is the only remembered occurrence of the run
     that is consistent with what the caller supplied; with none or several, or with
     nothing missing, the record stays as it was.
     */
    method ResolveFeedbackRef(f: Feedback) returns (r: Feedback)
      requires Valid()
      ensures forall ref :: OnlyMatch(f, Occurrences(traces, f.runId), ref) ==> r == Feedback(f.runId, ref.traceId, ref.runSpanId)
      ensures r != f ==> exists ref :: OnlyMatch(f, Occurrences(traces, f.runId), ref)
      ensures r.runId == f.runId && (f.traceId != "" && f.runSpanId != "" ==> r == f)
    {
      if f.traceId != "" && f.runSpanId != "" { return f; }
      var occurrences := Occurrences(traces, f.runId);
      var matches := Match(f, occurrences);
      hide Matches, OnlyMatch, Replay;
      MatchesDecide(f, occurrences);
      r := f;
      if |matches| != 1 { return; }
      if r.traceId == "" { r := r.(traceId := matches[0].traceId); }
      if r.runSpanId == "" { r := r.(runSpanId := matches[0].runSpanId); }
      assert OnlyMatch(f, occurrences, matches[0]);
    }
  }

  /** The match loop of resolveFeedbackRef. */
  method Match(f: Feedback, refs: seq<Ref>) returns (matches: seq<Ref>)
    ensures matches == Matches(f, refs)
  {
    matches := [];
    for i := 0 to |refs|
      invariant matches == Matches(f, refs[..i])
    {
      assert refs[..i + 1][..i] == refs[..i];
      var ref := refs[i];
      if f.traceId != "" && ref.traceId != f.traceId { continue; }
      if f.runSpanId != "" && ref.runSpanId != f.runSpanId { continue; }
      matches := matches + [ref];
    }
    assert refs[..|refs|] == refs;
  }

  /** There is an only match exactly if the list of matches has one element, and it is that element. */
  lemma {:induction false} MatchesDecide(f: Feedback, refs: seq<Ref>)
    requires Distinct(refs)
    ensures forall ref :: OnlyMatch(f, refs, ref) <==> |Matches(f, refs)| == 1 && ref == Matches(f, refs)[0]
  {
    MatchesAre(f, refs);
    var matches := Matches(f, refs);
    forall ref
      ensures OnlyMatch(f, refs, ref) <==> |matches| == 1 && ref == matches[0]
    {
      if |matches| == 1 {
        assert matches[0] in matches;
      } else if |matches| > 1 {
        assert matches[0] in matches && matches[1] in matches && matches[0] != matches[1];
      }
    }
  }

  /** The prune loop of rememberTrace. */
  method Prune(remaining: seq<Ref>, gone: Ref) returns (pruned: seq<Ref>)
    ensures pruned == Without(remaining, gone)
  {
    pruned := [];
    for i := 0 to |remaining|
      invariant pruned + Without(remaining[i..], gone) == Without(remaining, gone)
    {
      assert remaining[i..][1..] == remaining[i + 1..];
      if remaining[i] != gone {
        pruned := pruned + [remaining[i]];
      }
    }
  }
}
