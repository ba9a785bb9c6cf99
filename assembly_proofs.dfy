/**
 * What the assembly promises over whole runs of callbacks: one record per
 * car, emitted by the callback that empties the pending set, whatever order
 * the tab callbacks arrive in; never a second record; none for a car whose
 * first page offered no tab to fetch.
 */
module AssemblyProofs {
  import opened Values
  import opened Assembly
  import opened FilterMap

  /** A callback that reaches the bookkeeping: a parsed response, or a failed
      tab request (whose meta names its data key). */
  predicate Settles(e: Event) {
    match e
    case TabDone(_, parsed) => parsed.Parsed?
    case TabFailed(dataKey, _, _) => dataKey.Some?
  }

  function KeyOf(e: Event): Key {
    match e
    case TabDone(key, _) => key
    case TabFailed(dataKey, _, _) => if dataKey.Some? then dataKey.value else NoneKey
  }

  /** The value a settling callback stores in its slot. */
  function Written(e: Event): Value {
    match e
    case TabDone(_, parsed) => if parsed.Parsed? then parsed.value else Null
    case TabFailed(_, error, url) => ErrorPlaceholder(error, url)
  }

  function EventKeys(es: seq<Event>): set<Key> {
    set e | e in es :: KeyOf(e)
  }

  predicate DistinctKeys(es: seq<Event>) {
    forall i, j | 0 <= i < j < |es| :: KeyOf(es[i]) != KeyOf(es[j])
  }

  /** The slots a sequence of settling callbacks writes; a later write to a key wins. */
  function Writes(es: seq<Event>): map<Key, Value> {
    if es == [] then map[] else map[KeyOf(es[0]) := Written(es[0])] + Writes(es[1..])
  }

  /** The record state right after `parse_first_page` ran on a fresh record. */
  function AfterDiscovery(base: map<Key, Value>, tabs: seq<TabLink>): CarState {
    Initial(base).(pending := KeysOf(Plan(tabs)))
  }

  function EmissionCount(outs: seq<Outcome>): nat {
    if outs == [] then 0 else (if outs[0].Emitted? then 1 else 0) + EmissionCount(outs[1..])
  }

  /** Every tab of the car has exactly one settling callback still to come. */
  predicate GatherReady(s: CarState, es: seq<Event>) {
    && WellFormed(s) && s.tracking
    && (forall e | e in es :: Settles(e))
    && DistinctKeys(es)
    && EventKeys(es) == s.pending
    && PendingTabs !in s.pending
  }

  // ---------------------------------------------------------------------
  // The written slots
  // ---------------------------------------------------------------------

  lemma {:induction false} WritesKeys(es: seq<Event>)
    ensures Writes(es).Keys == EventKeys(es)
  {
    if es != [] {
      WritesKeys(es[1..]);
      assert es == [es[0]] + es[1..];
      assert EventKeys(es) == {KeyOf(es[0])} + EventKeys(es[1..]);
    }
  }

  lemma {:induction false} WritesAt(es: seq<Event>, i: nat)
    requires DistinctKeys(es) && i < |es|
    ensures KeyOf(es[i]) in Writes(es) && Writes(es)[KeyOf(es[i])] == Written(es[i])
  {
    var rest := es[1..];
    assert DistinctKeys(rest) by {
      forall a, b | 0 <= a < b < |rest| ensures KeyOf(rest[a]) != KeyOf(rest[b]) {
        assert rest[a] == es[a + 1] && rest[b] == es[b + 1];
      }
    }
    if i == 0 {
      WritesKeys(rest);
      forall e | e in rest ensures KeyOf(e) != KeyOf(es[0]) {
        var j :| 0 <= j < |rest| && rest[j] == e;
        assert es[j + 1] == e;
      }
    } else {
      WritesAt(rest, i - 1);
      assert rest[i - 1] == es[i];
    }
  }

  lemma SameEventKeys(es1: seq<Event>, es2: seq<Event>)
    requires multiset(es1) == multiset(es2)
    ensures EventKeys(es1) == EventKeys(es2)
  {
    assert forall e :: e in es1 <==> e in multiset(es1);
    assert forall e :: e in es2 <==> e in multiset(es2);
  }

  /** A key written by both orders holds the same value in both. */
  lemma WritesAgree(es1: seq<Event>, es2: seq<Event>, i: nat)
    requires DistinctKeys(es1) && DistinctKeys(es2) && multiset(es1) == multiset(es2)
    requires i < |es1|
    ensures var k := KeyOf(es1[i]); k in Writes(es1) && k in Writes(es2) && Writes(es1)[k] == Writes(es2)[k]
  {
    assert es1[i] in multiset(es2);
    var j :| 0 <= j < |es2| && es2[j] == es1[i];
    WritesAt(es1, i);
    WritesAt(es2, j);
  }

  /** With distinct keys, the written slots do not depend on the order of the callbacks. */
  lemma WritesPermutation(es1: seq<Event>, es2: seq<Event>)
    requires DistinctKeys(es1) && DistinctKeys(es2) && multiset(es1) == multiset(es2)
    ensures Writes(es1) == Writes(es2)
  {
    WritesKeys(es1);
    WritesKeys(es2);
    SameEventKeys(es1, es2);
    forall k | k in Writes(es1) ensures Writes(es1)[k] == Writes(es2)[k] {
      var e :| e in es1 && KeyOf(e) == k;
      var i :| 0 <= i < |es1| && es1[i] == e;
      WritesAgree(es1, es2, i);
    }
  }

  // ---------------------------------------------------------------------
  // Exactly one record per car
  // ---------------------------------------------------------------------

  lemma SettlingApply(s: CarState, e: Event)
    requires WellFormed(s) && Settles(e)
    ensures Apply(s, e) == Complete(s, KeyOf(e), Parsed(Written(e)))
  {
  }

  lemma OverlayStep(m: map<Key, Value>, k: Key, v: Value, w: map<Key, Value>)
    ensures m[k := v] + w == m + (map[k := v] + w)
  {
  }

  /** The keys of the callbacks after the first are the pending keys but the first's. */
  lemma RestKeys(s: CarState, es: seq<Event>)
    requires GatherReady(s, es) && es != []
    ensures EventKeys(es[1..]) == s.pending - {KeyOf(es[0])}
  {
    var rest, k := es[1..], KeyOf(es[0]);
    forall x | x in EventKeys(rest) ensures x in s.pending - {k} {
      var e' :| e' in rest && KeyOf(e') == x;
      var j :| 0 <= j < |rest| && rest[j] == e';
      assert es[j + 1] == e';
    }
    forall x | x in s.pending - {k} ensures x in EventKeys(rest) {
      var e' :| e' in es && KeyOf(e') == x;
      var j :| 0 <= j < |es| && es[j] == e';
      assert j != 0;
      assert rest[j - 1] == e';
    }
  }

  lemma DistinctRest(es: seq<Event>)
    requires DistinctKeys(es) && es != []
    ensures DistinctKeys(es[1..])
  {
    var rest := es[1..];
    forall a, b | 0 <= a < b < |rest| ensures KeyOf(rest[a]) != KeyOf(rest[b]) {
      assert rest[a] == es[a + 1] && rest[b] == es[b + 1];
    }
  }

  /** Once the first callback's key is resolved, the others are ready for the new state. */
  lemma RestReady(s: CarState, es: seq<Event>, next: CarState)
    requires GatherReady(s, es) && |es| > 1
    requires WellFormed(next) && next.tracking && next.pending == s.pending - {KeyOf(es[0])}
    ensures GatherReady(next, es[1..])
  {
    var rest := es[1..];
    RestKeys(s, es);
    DistinctRest(es);
    forall e' | e' in rest ensures Settles(e') {
      assert e' in es;
    }
  }

  /** The first of the remaining callbacks writes its slot and resolves its key;
      it yields nothing unless it was the last one. */
  lemma FirstCallback(s: CarState, es: seq<Event>)
    requires GatherReady(s, es) && es != []
    ensures var st := Apply(s, es[0]); var k := KeyOf(es[0]);
      && st.next == CarState(s.entries[k := Written(es[0])], s.pending - {k}, true)
      && (|es| == 1 <==> st.next.pending == {})
      && (|es| > 1 ==> st.out == Quiet && GatherReady(st.next, es[1..]))
  {
    var e, rest := es[0], es[1..];
    assert e in es;
    SettlingApply(s, e);
    RestKeys(s, es);
    var st := Apply(s, e);
    if |es| > 1 {
      assert rest[0] in rest;
      assert KeyOf(rest[0]) in EventKeys(rest);
      RestReady(s, es, st.next);
    }
  }

  /** When every pending tab gets exactly one callback, the record ends with
      every slot written and nothing pending. */
  lemma {:induction false} GatherFinalState(s: CarState, es: seq<Event>)
    requires GatherReady(s, es)
    decreases |es|
    ensures Run(s, es).0 == CarState(s.entries + Writes(es), {}, true)
  {
    if es == [] {
      assert s.entries + Writes(es) == s.entries;
    } else if |es| == 1 {
      FinalAlone(s, es);
    } else {
      var st := Apply(s, es[0]);
      AfterFirst(s, es);
      GatherFinalState(st.next, es[1..]);
    }
  }

  /** A single remaining callback writes its slot and empties the pending set. */
  lemma FinalAlone(s: CarState, es: seq<Event>)
    requires GatherReady(s, es) && |es| == 1
    ensures Run(s, es).0 == CarState(s.entries + Writes(es), {}, true)
  {
    var e := es[0];
    var k, w := KeyOf(e), Written(e);
    assert Settles(e) && s.pending == {k} by {
      assert e in es;
      assert es == [e];
    }
    assert s.entries + Writes(es) == s.entries[k := w] by {
      assert Writes(es[1..]) == map[];
      assert Writes(es) == map[k := w];
    }
    SettlingApply(s, e);
    assert Run(s, es).0 == Apply(s, e).next;
  }

  /** The first callback's outcome, then the others'. */
  lemma RunFirst(s: CarState, es: seq<Event>)
    requires WellFormed(s) && es != []
    ensures var st := Apply(s, es[0]); var r := Run(st.next, es[1..]);
      && Run(s, es).1 == [st.out] + r.1
      && (forall i | 0 < i < |es| :: Run(s, es).1[i] == r.1[i - 1])
  {
  }

  /** The callbacks before the last yield nothing. */
  lemma {:induction false} GatherQuiet(s: CarState, es: seq<Event>)
    requires GatherReady(s, es)
    decreases |es|
    ensures forall i | 0 <= i < |es| - 1 :: Run(s, es).1[i] == Quiet
  {
    if |es| > 1 {
      FirstCallback(s, es);
      RunFirst(s, es);
      var st := Apply(s, es[0]);
      GatherQuiet(st.next, es[1..]);
      forall i | 0 <= i < |es| - 1 ensures Run(s, es).1[i] == Quiet {
        if i == 0 {
          assert Run(s, es).1[0] == st.out;
        }
      }
    }
  }

  /** The last callback yields the merged record of the base and all written slots. */
  lemma {:induction false} GatherLast(s: CarState, es: seq<Event>)
    requires GatherReady(s, es) && es != []
    requires Merge(s.entries + Writes(es)).Ok?
    decreases |es|
    ensures Run(s, es).1[|es| - 1] == Emitted(Merge(s.entries + Writes(es)).value)
  {
    if |es| == 1 {
      LastAlone(s, es);
    } else {
      var st := Apply(s, es[0]);
      AfterFirst(s, es);
      GatherLast(st.next, es[1..]);
    }
  }

  /** A single remaining callback yields the merged record. */
  lemma LastAlone(s: CarState, es: seq<Event>)
    requires GatherReady(s, es) && |es| == 1
    requires Merge(s.entries + Writes(es)).Ok?
    ensures Run(s, es).1[0] == Emitted(Merge(s.entries + Writes(es)).value)
  {
    var e := es[0];
    var k, w := KeyOf(e), Written(e);
    assert Settles(e) && s.pending == {k} by {
      assert e in es;
      assert es == [e];
    }
    assert s.entries + Writes(es) == s.entries[k := w] by {
      assert Writes(es[1..]) == map[];
      assert Writes(es) == map[k := w];
    }
    LastCallbackEmits(s, e);
    assert Run(s, es).1 == [Apply(s, e).out];
  }

  /** The callback for the only pending key yields the merged record with its slot written. */
  lemma LastCallbackEmits(s: CarState, e: Event)
    requires WellFormed(s) && s.tracking && Settles(e)
    requires s.pending == {KeyOf(e)} && KeyOf(e) != PendingTabs
    requires Merge(s.entries[KeyOf(e) := Written(e)]).Ok?
    ensures Apply(s, e).out == Emitted(Merge(s.entries[KeyOf(e) := Written(e)]).value)
  {
    SettlingApply(s, e);
  }

  /** With more than one callback left, the first changes the state the others
      start from, and the final state and last outcome are theirs. */
  lemma AfterFirst(s: CarState, es: seq<Event>)
    requires GatherReady(s, es) && |es| > 1
    ensures var st := Apply(s, es[0]); var rest := es[1..];
      && GatherReady(st.next, rest)
      && st.next.entries + Writes(rest) == s.entries + Writes(es)
      && Run(s, es).0 == Run(st.next, rest).0
      && Run(s, es).1[|es| - 1] == Run(st.next, rest).1[|rest| - 1]
  {
    FirstCallback(s, es);
    GatherEntriesStep(s, es);
    RunFirst(s, es);
  }

  /**
   * When every pending tab gets exactly one callback (response or failure),
   * the record ends with every slot written and nothing pending, the
   * callbacks before the last yield nothing and the last one yields the
   * merged record of the base and all written slots.
   */
  lemma GatherEmitsOnce(s: CarState, es: seq<Event>)
    requires GatherReady(s, es)
    requires Merge(s.entries + Writes(es)).Ok?
    ensures var r := Run(s, es);
      && r.0 == CarState(s.entries + Writes(es), {}, true)
      && (forall i | 0 <= i < |es| - 1 :: r.1[i] == Quiet)
      && (|es| > 0 ==> r.1[|es| - 1] == Emitted(Merge(s.entries + Writes(es)).value))
  {
    GatherFinalState(s, es);
    GatherQuiet(s, es);
    if es != [] {
      GatherLast(s, es);
    }
  }

  /** The first callback's write followed by the others' is all of them. */
  lemma GatherEntriesStep(s: CarState, es: seq<Event>)
    requires GatherReady(s, es) && es != []
    ensures Apply(s, es[0]).next.entries + Writes(es[1..]) == s.entries + Writes(es)
  {
    FirstCallback(s, es);
    var k, w := KeyOf(es[0]), Written(es[0]);
    assert Writes(es) == map[k := w] + Writes(es[1..]);
    OverlayStep(s.entries, k, w, Writes(es[1..]));
  }

  /** The emitted record holds every tab's value or error placeholder, and
      the base fields no tab overwrote. */
  lemma EmittedRecordContents(s: CarState, es: seq<Event>)
    requires GatherReady(s, es) && |es| > 0
    requires Merge(s.entries + Writes(es)).Ok?
    ensures Run(s, es).1[|es| - 1].Emitted?
    ensures var r := Run(s, es).1[|es| - 1].record;
      && (forall e | e in es && KeyOf(e) != BaseInfo :: KeyOf(e) in r && r[KeyOf(e)] == Written(e))
      && (forall k | k in s.entries && k != BaseInfo && k !in s.pending :: k in r && r[k] == s.entries[k])
  {
    GatherLast(s, es);
    var m := s.entries + Writes(es);
    var r := Merge(m).value;
    MergeContents(m);
    forall e | e in es && KeyOf(e) != BaseInfo ensures KeyOf(e) in r && r[KeyOf(e)] == Written(e) {
      var i :| 0 <= i < |es| && es[i] == e;
      WritesAt(es, i);
      assert m[KeyOf(e)] == Written(e);
    }
    WritesKeys(es);
    forall k | k in s.entries && k != BaseInfo && k !in s.pending ensures k in r && r[k] == s.entries[k] {
      assert k !in Writes(es);
      assert m[k] == s.entries[k];
    }
  }

  /**
   * Two arrival orders of the same callbacks, with distinct keys, lead to
   * the same outcomes, callback by callback, and the same final record.
   */
  lemma OrderIrrelevant(s: CarState, es1: seq<Event>, es2: seq<Event>)
    requires GatherReady(s, es1) && DistinctKeys(es2) && multiset(es1) == multiset(es2)
    requires Merge(s.entries + Writes(es1)).Ok?
    ensures Run(s, es1) == Run(s, es2)
  {
    SameGather(s, es1, es2);
    WritesPermutation(es1, es2);
    GatherEmitsOnce(s, es1);
    GatherEmitsOnce(s, es2);
    var r1, r2 := Run(s, es1), Run(s, es2);
    forall i | 0 <= i < |es1| ensures r1.1[i] == r2.1[i] {
      if i < |es1| - 1 {
        assert r1.1[i] == Quiet;
      }
    }
    assert r1.1 == r2.1;
  }

  /** A reordering of ready callbacks is ready too. */
  lemma SameGather(s: CarState, es1: seq<Event>, es2: seq<Event>)
    requires GatherReady(s, es1) && DistinctKeys(es2) && multiset(es1) == multiset(es2)
    ensures GatherReady(s, es2) && |es1| == |es2|
  {
    SameMembers(es1, es2);
    SameEventKeys(es1, es2);
  }

  /** Two orders of the same callbacks have the same members and the same length. */
  lemma SameMembers(es1: seq<Event>, es2: seq<Event>)
    requires multiset(es1) == multiset(es2)
    ensures |es1| == |es2| && forall e :: e in es1 <==> e in es2
  {
    assert |es1| == |multiset(es1)| == |es2|;
    assert forall e :: e in es1 <==> e in multiset(es1);
    assert forall e :: e in es2 <==> e in multiset(es2);
  }

  // ---------------------------------------------------------------------
  // Never a second record
  // ---------------------------------------------------------------------

  /** Callbacks never add to the pending set: a resolved key never returns. */
  lemma {:induction false} PendingOnlyShrinks(s: CarState, es: seq<Event>)
    requires WellFormed(s)
    decreases |es|
    ensures Run(s, es).0.pending <= s.pending
  {
    if es != [] {
      PendingOnlyShrinks(Apply(s, es[0]).next, es[1..]);
    }
  }

  /** Once nothing is pending, or the pending set is gone, no callback yields a record. */
  lemma {:induction false} NothingPendingNeverEmits(s: CarState, es: seq<Event>)
    requires WellFormed(s) && (s.pending == {} || !s.tracking)
    decreases |es|
    ensures EmissionCount(Run(s, es).1) == 0
  {
    if es != [] {
      var st := Apply(s, es[0]);
      assert !st.out.Emitted?;
      NothingPendingNeverEmits(st.next, es[1..]);
    }
  }

  /** Whatever callbacks arrive, late, duplicated or failing, a car yields at most one record. */
  lemma {:induction false} AtMostOneEmission(s: CarState, es: seq<Event>)
    requires WellFormed(s)
    decreases |es|
    ensures EmissionCount(Run(s, es).1) <= 1
  {
    if es != [] {
      var st := Apply(s, es[0]);
      if st.out.Emitted? {
        NothingPendingNeverEmits(st.next, es[1..]);
      } else {
        AtMostOneEmission(st.next, es[1..]);
      }
    }
  }

  /** A failure of the first-page request carries no data key: whatever comes
      after it runs as if it had not happened, and it only adds a KeyError. */
  lemma FirstPageFailureIgnored(s: CarState, error: string, url: string, es: seq<Event>)
    requires WellFormed(s)
    ensures var r := Run(s, [TabFailed(None, error, url)] + es);
      r == (Run(s, es).0, [Raised(KeyError(Name("data_key")))] + Run(s, es).1)
  {
    var all := [TabFailed(None, error, url)] + es;
    assert all[0] == TabFailed(None, error, url) && all[1..] == es;
  }

  /** A car whose first page failed never enters assembly: nothing is pending
      on its fresh record, so no later callback yields a record for it. */
  lemma FirstPageFailureNeverEmits(base: map<Key, Value>, error: string, url: string, es: seq<Event>)
    ensures var outs := Run(Initial(base), [TabFailed(None, error, url)] + es).1;
      outs[0] == Raised(KeyError(Name("data_key"))) && EmissionCount(outs) == 0
  {
    FirstPageFailureIgnored(Initial(base), error, url, es);
    NothingPendingNeverEmits(Initial(base), [TabFailed(None, error, url)] + es);
  }

  /** A failure for a key that is no longer pending stores its placeholder and
      then raises KeyError: nothing is resolved and nothing is yielded. */
  lemma LateFailureRaises(s: CarState, key: Key, error: string, url: string)
    requires WellFormed(s) && s.tracking && key != PendingTabs && key !in s.pending
    ensures var st := HandleFailure(s, Some(key), error, url);
      && st.next.entries == s.entries[key := ErrorPlaceholder(error, url)]
      && st.next.pending == s.pending
      && st.out == Raised(KeyError(key))
  {
  }

  /** Once a key is resolved, every later callback for it, after any others,
      raises: KeyError while the pending set exists, AttributeError once it is gone. */
  lemma ResolvedKeyRaises(s: CarState, es: seq<Event>, key: Key, v: Value)
    requires WellFormed(s) && key != PendingTabs && key !in s.pending
    ensures var t := Run(s, es).0;
      Complete(t, key, Parsed(v)).out == if t.tracking then Raised(KeyError(key)) else Raised(AttributeError)
  {
    PendingOnlyShrinks(s, es);
  }

  /** A failed tab request completes its key like a response, storing the error and the URL. */
  lemma FailedTabCompletes(s: CarState, key: Key, error: string, url: string)
    requires WellFormed(s) && s.tracking && key != PendingTabs && key in s.pending
    ensures var st := HandleFailure(s, Some(key), error, url);
      && st.next.entries[key] == ErrorPlaceholder(error, url)
      && st.next.pending == s.pending - {key}
      && (s.pending == {key} && st.next.entries[BaseInfo].Dict? ==> st.out.Emitted?)
  {
  }

  // ---------------------------------------------------------------------
  // Discovery
  // ---------------------------------------------------------------------

  function SkippedCount(tabs: seq<TabLink>): nat {
    if tabs == [] then 0
    else SkippedCount(tabs[..|tabs| - 1]) + (if Skipped(tabs[|tabs| - 1].id) then 1 else 0)
  }

  /** One request per tab link that is neither `model` nor `compare`. */
  lemma {:induction false} PlanLength(tabs: seq<TabLink>)
    ensures |Plan(tabs)| == |tabs| - SkippedCount(tabs)
  {
    if tabs != [] {
      var n := |tabs| - 1;
      PlanLength(tabs[..n]);
      CollectNext(TabRequest, tabs, n);
      assert tabs[..n + 1] == tabs;
      TabRequestShape(tabs[n]);
    }
  }

  /** Every request comes from one tab link, and every tab that is not skipped has one. */
  lemma PlanMembers(tabs: seq<TabLink>)
    ensures forall r :: r in Plan(tabs) <==> exists i | 0 <= i < |tabs| :: TabRequest(tabs[i]) == Some(r)
  {
    forall r ensures r in Plan(tabs) <==> exists i | 0 <= i < |tabs| :: TabRequest(tabs[i]) == Some(r) {
      if r in Plan(tabs) {
        CollectFrom(TabRequest, tabs, r);
      }
      if i :| 0 <= i < |tabs| && TabRequest(tabs[i]) == Some(r) {
        CollectHas(TabRequest, tabs, i);
      }
    }
  }

  /** No request at all exactly when every tab link is `model` or `compare`. */
  lemma {:induction false} PlanEmptyIffAllSkipped(tabs: seq<TabLink>)
    ensures Plan(tabs) == [] <==> forall i | 0 <= i < |tabs| :: Skipped(tabs[i].id)
  {
    PlanMembers(tabs);
    if Plan(tabs) != [] {
      assert Plan(tabs)[0] in Plan(tabs);
    } else {
      forall i | 0 <= i < |tabs| ensures Skipped(tabs[i].id) {
        TabRequestShape(tabs[i]);
        if !Skipped(tabs[i].id) {
          assert false;
        }
      }
    }
  }

  /** A car whose first page offers no tab to fetch never yields a record. */
  lemma NoTabsNoRecord(base: map<Key, Value>, tabs: seq<TabLink>, es: seq<Event>)
    requires forall i | 0 <= i < |tabs| :: Skipped(tabs[i].id)
    ensures EmissionCount(Run(AfterDiscovery(base, tabs), es).1) == 0
  {
    PlanEmptyIffAllSkipped(tabs);
    NothingPendingNeverEmits(AfterDiscovery(base, tabs), es);
  }

  /** The `range` tab is fetched with the mileage parser into the `mileage` slot. */
  lemma RangeTabRequest(url: string)
    ensures TabRequest(TabLink(Name("range"), url)) == Some(Request(url, Mileage, ParseMileage))
  {
    assert Route(Name("range")) == (Mileage, Some(ParseMileage));
  }

  /** So is the `mileage` tab. */
  lemma MileageTabRequest(url: string)
    ensures TabRequest(TabLink(Name("mileage"), url)) == Some(Request(url, Mileage, ParseMileage))
  {
    assert Route(Name("mileage")) == (Mileage, Some(ParseMileage));
  }

  /** The `range` and `mileage` tabs share the data key `mileage`: two requests, one pending key. */
  lemma RangeAndMileageShareOneKey(base: map<Key, Value>, u1: string, u2: string)
    ensures var tabs := [TabLink(Name("range"), u1), TabLink(Name("mileage"), u2)];
      && Plan(tabs) == [Request(u1, Mileage, ParseMileage), Request(u2, Mileage, ParseMileage)]
      && AfterDiscovery(base, tabs).pending == {Mileage}
  {
    var tabs := [TabLink(Name("range"), u1), TabLink(Name("mileage"), u2)];
    var r1, r2 := Request(u1, Mileage, ParseMileage), Request(u2, Mileage, ParseMileage);
    RangeTabRequest(u1);
    MileageTabRequest(u2);
    PlanOfTwo(tabs);
    assert Plan(tabs) == [r1] + [r2];
    assert KeysOf([r1, r2]) == {Mileage} by {
      assert r1 in [r1, r2];
    }
  }

  /** The requests for two tab links: the first's, then the second's. */
  lemma PlanOfTwo(tabs: seq<TabLink>)
    requires |tabs| == 2
    ensures Plan(tabs) == Plan([tabs[0]]) + Plan([tabs[1]])
    ensures Plan([tabs[0]]) == if TabRequest(tabs[0]).Some? then [TabRequest(tabs[0]).value] else []
  {
    CollectNext(TabRequest, tabs, 1);
    CollectNext(TabRequest, tabs, 0);
    CollectNext(TabRequest, [tabs[1]], 0);
    assert tabs[..2] == tabs && tabs[..1] == [tabs[0]] && tabs[..0] == [];
    assert [tabs[1]][..1] == [tabs[1]] && [tabs[1]][..0] == [];
  }

  /** Two callbacks run one after the other. */
  lemma RunTwo(s: CarState, e1: Event, e2: Event)
    requires WellFormed(s)
    ensures var st := Apply(s, e1);
      Run(s, [e1, e2]).1 == [st.out, Apply(st.next, e2).out]
  {
    var es := [e1, e2];
    assert es[1..] == [e2] && es[1..][1..] == [];
  }

  /** Completing the only pending slot yields the record holding its value and
      empties the pending set. */
  lemma LastPendingCompletes(s: CarState, key: Key, v: Value)
    requires WellFormed(s) && s.tracking && s.pending == {key}
    requires key != BaseInfo && key != PendingTabs && s.entries[BaseInfo].Dict?
    ensures var st := Complete(s, key, Parsed(v));
      && st.out.Emitted? && key in st.out.record && st.out.record[key] == v
      && st.next.pending == {} && st.next.tracking
  {
  }

  /** Of the two callbacks for the shared key, the first yields the record
      and the second raises KeyError. */
  lemma SecondMileageCallbackFails(base: map<Key, Value>, v1: Value, v2: Value)
    ensures var s := Initial(base).(pending := {Mileage});
      var outs := Run(s, [TabDone(Mileage, Parsed(v1)), TabDone(Mileage, Parsed(v2))]).1;
      && outs[0].Emitted? && Mileage in outs[0].record && outs[0].record[Mileage] == v1
      && outs[1] == Raised(KeyError(Mileage))
  {
    var s := Initial(base).(pending := {Mileage});
    RunTwo(s, TabDone(Mileage, Parsed(v1)), TabDone(Mileage, Parsed(v2)));
    LastPendingCompletes(s, Mileage, v1);
  }

  /**
   * A car whose first page offers the price and specs tabs; the price tab
   * answers and the specs tab times out. The first callback yields nothing;
   * the second yields the record merged from the base, the price and the
   * error placeholder for the specifications.
   */
  lemma PriceAnswersSpecsTimesOut(base: map<Key, Value>, tabs: seq<TabLink>, es: seq<Event>, price: Value)
    requires tabs == [TabLink(Name("price"), "http://x/price"), TabLink(Name("specs"), "http://x/specs")]
    requires es == [TabDone(Price, Parsed(price)), TabFailed(Some(Specifications), "timeout", "http://x/specs")]
    ensures var out := Run(AfterDiscovery(base, tabs), es).1;
      var failure := ErrorPlaceholder("timeout", "http://x/specs");
      && |out| == 2 && out[0] == Quiet
      && out[1] == Emitted(Merge(InitialEntries(base)[Price := price][Specifications := failure]).value)
  {
    PriceAndSpecsDiscovered(base, tabs);
    var s := AfterDiscovery(base, tabs);
    RunTwo(s, es[0], es[1]);
    var failure := ErrorPlaceholder("timeout", "http://x/specs");
    var entries := InitialEntries(base)[Price := price];
    var st := Apply(s, es[0]);
    assert st.out == Quiet && st.next == CarState(entries, {Specifications}, true) by {
      assert Price != BaseInfo && Price != PendingTabs && Price != Specifications;
      SettlingApply(s, es[0]);
    }
    assert Merge(entries[Specifications := failure]).Ok? by {
      assert Specifications != BaseInfo && Specifications != PendingTabs;
      assert entries[Specifications := failure][BaseInfo] == Dict(base);
    }
    LastCallbackEmits(st.next, es[1]);
  }

  lemma PriceAndSpecsDiscovered(base: map<Key, Value>, tabs: seq<TabLink>)
    requires tabs == [TabLink(Name("price"), "http://x/price"), TabLink(Name("specs"), "http://x/specs")]
    ensures AfterDiscovery(base, tabs) == CarState(InitialEntries(base), {Price, Specifications}, true)
  {
    var r1 := Request("http://x/price", Price, ParsePrice);
    var r2 := Request("http://x/specs", Specifications, ParseSpecifications);
    assert Plan(tabs) == [r1, r2] by {
      assert TabRequest(tabs[0]) == Some(r1);
      assert TabRequest(tabs[1]) == Some(r2);
      PlanOfTwo(tabs);
    }
    assert KeysOf([r1, r2]) == {Price, Specifications} by {
      assert r1 in [r1, r2] && r2 in [r1, r2];
    }
  }
}
