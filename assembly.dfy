/**
 * The per-car scatter/gather assembly of the car-details spider.
 *
 * A car record is one Python dictionary: a `base_info` entry holding the car
 * from the listing, seven data slots that start as `None`, and a
 * `_pending_tabs` set. `parse_first_page` discovers the car's tabs, adds each
 * tab's data key to the pending set and issues one request per tab; every
 * response (`process_tab`) or request failure (`handle_error`) writes one
 * slot, removes that key from the set and calls `finalize_car_data`, which
 * yields the merged flat record once the set is empty.
 *
 * Scrapy runs callbacks one at a time, so every callback is one atomic step
 * here. `CarState` is the record as a value and the functions below are the
 * specification of each step; the class `CarData` holds the same state in
 * fields and its methods perform the steps in place.
 */
module Assembly {
  import opened Values
  import opened FilterMap

  const BaseInfo: Key := Name("base_info")
  const PendingTabs: Key := Name("_pending_tabs")
  const Price: Key := Name("price")
  const Specifications: Key := Name("specifications")
  const Variants: Key := Name("variants")
  const Colours: Key := Name("colours")
  const Mileage: Key := Name("mileage")
  const Reviews: Key := Name("reviews")
  const Gallery: Key := Name("gallery")

  /** The data slots of a fresh record, each initially `None`. */
  const Slots: seq<Key> := [Price, Specifications, Variants, Colours, Mileage, Reviews, Gallery]

  /** A flat record as the spider yields it. */
  type Record = map<Key, Value>

  /**
   * A car record under assembly. `entries` is every entry of the dictionary
   * except `_pending_tabs` (so it includes `base_info`); `pending` is the
   * `_pending_tabs` set. `tracking` turns false once a tab whose data key is
   * literally `_pending_tabs` has overwritten that set with its value: from
   * then on every `add` or `remove` on it raises AttributeError.
   */
  datatype CarState = CarState(entries: map<Key, Value>, pending: set<Key>, tracking: bool)

  predicate WellFormed(s: CarState) {
    && BaseInfo in s.entries
    && PendingTabs !in s.entries
    && (forall k | k in Slots :: k in s.entries)
  }

  function InitialEntries(base: map<Key, Value>): map<Key, Value> {
    map[BaseInfo := Dict(base), Price := Null, Specifications := Null, Variants := Null,
        Colours := Null, Mileage := Null, Reviews := Null, Gallery := Null]
  }

  /** The record `start_requests` creates for one car of the listing. */
  function Initial(base: map<Key, Value>): (s: CarState)
    ensures WellFormed(s) && s.tracking && s.pending == {}
    ensures s.entries[BaseInfo] == Dict(base)
    ensures forall k | k in Slots :: s.entries[k] == Null
    ensures s.entries.Keys == {BaseInfo} + set k | k in Slots
  {
    CarState(InitialEntries(base), {}, true)
  }

  // ---------------------------------------------------------------------
  // Emission
  // ---------------------------------------------------------------------

  /**
   * The record `finalize_car_data` builds from a copy of the entries:
   * `{**base_info, **entries}` without `base_info`. A collected entry wins
   * over a base field of the same name. Spreading a `base_info` that is not
   * a dictionary raises TypeError.
   */
  function Merge(entries: map<Key, Value>): (r: Result<Record, Error>)
    requires BaseInfo in entries
    ensures r.Ok? <==> entries[BaseInfo].Dict?
    ensures r.Err? ==> r.error == TypeError
  {
    match entries[BaseInfo]
    case Dict(base) => Ok((base + entries) - {BaseInfo})
    case _ => Err(TypeError)
  }

  /** The merged record holds every entry but `base_info`, and the base fields no entry shadows. */
  lemma MergeContents(entries: map<Key, Value>)
    requires BaseInfo in entries && entries[BaseInfo].Dict?
    ensures var r := Merge(entries).value; var base := entries[BaseInfo].entries;
      && r.Keys == (base.Keys + entries.Keys) - {BaseInfo}
      && (forall k | k in entries && k != BaseInfo :: r[k] == entries[k])
      && (forall k | k in base && k !in entries :: r[k] == base[k])
  {
  }

  datatype Finalized = NotReady | Ready(record: Record) | Raises(error: Error)

  /** `finalize_car_data`: nothing while a tab is pending, the merged record once none is. */
  function Finalize(s: CarState): (f: Finalized)
    requires BaseInfo in s.entries
    ensures f.NotReady? <==> s.pending != {}
    ensures f.Ready? ==> Merge(s.entries) == Ok(f.record)
    ensures f.Raises? ==> s.pending == {} && Merge(s.entries) == Err(f.error)
  {
    if s.pending != {} then NotReady
    else
      match Merge(s.entries)
      case Ok(r) => Ready(r)
      case Err(e) => Raises(e)
  }

  // ---------------------------------------------------------------------
  // Completion
  // ---------------------------------------------------------------------

  /** What one callback does, as Scrapy sees it: yields a record, yields nothing, or raises. */
  datatype Outcome = Emitted(record: Record) | Quiet | Raised(error: Error)

  datatype Step = Step(next: CarState, out: Outcome)

  /** What a tab parser hands to `process_tab`: a value, or the exception it raised. */
  datatype Parse = Parsed(value: Value) | ParserRaised(error: Error)

  /** `if final_data: yield final_data` after `finalize_car_data`. */
  function YieldOf(f: Finalized): (out: Outcome)
    ensures out.Emitted? <==> f.Ready? && |f.record| > 0
    ensures out.Emitted? ==> out.record == f.record
    ensures out.Raised? <==> f.Raises?
    ensures out.Raised? ==> out.error == f.error
  {
    match f
    case NotReady => Quiet
    case Ready(r) => if |r| > 0 then Emitted(r) else Quiet
    case Raises(e) => Raised(e)
  }

  lemma MergedRecordIsNonEmpty(s: CarState)
    requires WellFormed(s)
    ensures Merge(s.entries).Ok? ==> |Merge(s.entries).value| > 0
  {
    if Merge(s.entries).Ok? {
      MergeContents(s.entries);
      assert Price in Merge(s.entries).value.Keys;
    }
  }

  /**
   * `process_tab`: write `car_data[key]`, remove `key` from the pending set,
   * then finalize. The write comes first, so a completion for a key that is
   * no longer pending still overwrites its slot before `remove` raises.
   */
  function Complete(s: CarState, key: Key, parsed: Parse): (st: Step)
    requires WellFormed(s)
    ensures WellFormed(st.next)
    ensures parsed.ParserRaised? ==> st == Step(s, Raised(parsed.error))
    ensures parsed.Parsed? ==>
      && st.next.entries == (if key == PendingTabs then s.entries else s.entries[key := parsed.value])
      && st.next.tracking == (s.tracking && key != PendingTabs)
      && st.next.pending == (if st.next.tracking && key in s.pending then s.pending - {key} else s.pending)
      && (!st.next.tracking ==> st.out == Raised(AttributeError))
      && (st.next.tracking && key !in s.pending ==> st.out == Raised(KeyError(key)))
      && (st.next.tracking && key in s.pending && s.pending != {key} ==> st.out == Quiet)
      && (st.next.tracking && s.pending == {key} && !st.next.entries[BaseInfo].Dict? ==> st.out == Raised(TypeError))
      && (st.out.Emitted? <==> st.next.tracking && s.pending == {key} && st.next.entries[BaseInfo].Dict?)
      && (st.out.Emitted? ==> Merge(st.next.entries) == Ok(st.out.record))
  {
    match parsed
    case ParserRaised(e) => Step(s, Raised(e))
    case Parsed(v) =>
      if key == PendingTabs then
        Step(s.(tracking := false), Raised(AttributeError))
      else
        var written := s.(entries := s.entries[key := v]);
        if !s.tracking then Step(written, Raised(AttributeError))
        else if key !in s.pending then Step(written, Raised(KeyError(key)))
        else
          var done := written.(pending := s.pending - {key});
          MergedRecordIsNonEmpty(done);
          Step(done, YieldOf(Finalize(done)))
  }

  /** The placeholder `handle_error` stores for a failed tab request. */
  function ErrorPlaceholder(error: string, url: string): Value {
    Dict(map[Name("error") := Text(error), Name("url") := Text(url)])
  }

  /** The value `parse_unknown` stores for a tab id the table does not know. */
  const UnknownPlaceholder: Value := Dict(map[Name("error") := Text("Unknown tab type")])

  /**
   * `handle_error`: reading `data_key` from the failed request's meta raises
   * KeyError for the first-page request, which carries none; otherwise the
   * error placeholder is stored exactly as `process_tab` stores a value.
   */
  function HandleFailure(s: CarState, dataKey: Option<Key>, error: string, url: string): (st: Step)
    requires WellFormed(s)
    ensures WellFormed(st.next)
    ensures dataKey.None? ==> st == Step(s, Raised(KeyError(Name("data_key"))))
    ensures dataKey.Some? ==> st == Complete(s, dataKey.value, Parsed(ErrorPlaceholder(error, url)))
  {
    match dataKey
    case None => Step(s, Raised(KeyError(Name("data_key"))))
    case Some(key) => Complete(s, key, Parsed(ErrorPlaceholder(error, url)))
  }

  /** A callback for one of the car's requests: a parsed response or a failure. */
  datatype Event =
    | TabDone(key: Key, parsed: Parse)
    | TabFailed(dataKey: Option<Key>, error: string, url: string)

  function Apply(s: CarState, e: Event): (st: Step)
    requires WellFormed(s)
    ensures WellFormed(st.next)
    ensures e.TabDone? ==> st == Complete(s, e.key, e.parsed)
    ensures e.TabFailed? ==> st == HandleFailure(s, e.dataKey, e.error, e.url)
  {
    match e
    case TabDone(key, parsed) => Complete(s, key, parsed)
    case TabFailed(dataKey, error, url) => HandleFailure(s, dataKey, error, url)
  }

  /** The callbacks of one car run one after the other: the final record state and each callback's outcome. */
  function Run(s: CarState, es: seq<Event>): (r: (CarState, seq<Outcome>))
    requires WellFormed(s)
    ensures WellFormed(r.0) && |r.1| == |es|
    decreases |es|
  {
    if es == [] then (s, [])
    else
      var st := Apply(s, es[0]);
      var rest := Run(st.next, es[1..]);
      (rest.0, [st.out] + rest.1)
  }

  // ---------------------------------------------------------------------
  // Discovery
  // ---------------------------------------------------------------------

  /** A tab link of the first page: its `id` attribute and its joined URL. */
  datatype TabLink = TabLink(id: Key, url: string)

  datatype Parser =
    | ParseSpecifications | ParsePrice | ParseVariants | ParseColours
    | ParseReviews | ParseGallery | ParseMileage | ParseUnknown

  /** A tab request: its URL, the data key in its meta, and its callback. */
  datatype Request = Request(url: string, dataKey: Key, parser: Parser)

  /** The tab table of `parse_first_page`: data key and parser per known tab id. */
  function TabMapping(id: Key): (r: Option<(Key, Option<Parser>)>)
    ensures (r.Some? && r.value.1.None?) <==> Skipped(id)
    ensures r.Some? && r.value.1.Some? ==> r.value.0 in Slots
    ensures id == Name("range") || id == Name("mileage") ==> r == Some((Mileage, Some(ParseMileage)))
  {
    if id == Name("specs") then Some((Specifications, Some(ParseSpecifications)))
    else if id == Name("price") then Some((Price, Some(ParsePrice)))
    else if id == Name("variants") then Some((Variants, Some(ParseVariants)))
    else if id == Name("colours") then Some((Colours, Some(ParseColours)))
    else if id == Name("reviews") then Some((Reviews, Some(ParseReviews)))
    else if id == Name("gallery") then Some((Gallery, Some(ParseGallery)))
    else if id == Name("mileage") then Some((Mileage, Some(ParseMileage)))
    else if id == Name("range") then Some((Mileage, Some(ParseMileage)))
    else if id == Name("model") then Some((BaseInfo, None))
    else if id == Name("compare") then Some((Name("compare"), None))
    else None
  }

  /** `tab_mapping.get(tab_id, (tab_id, self.parse_unknown))` */
  function Route(id: Key): (r: (Key, Option<Parser>))
    ensures r.1.None? <==> Skipped(id)
    ensures TabMapping(id).None? ==> r == (id, Some(ParseUnknown))
    ensures r.1.Some? && r.1.value != ParseUnknown ==> r.0 in Slots
  {
    match TabMapping(id)
    case Some(entry) => entry
    case None => (id, Some(ParseUnknown))
  }

  predicate Skipped(id: Key) {
    id == Name("model") || id == Name("compare")
  }

  /** The request `parse_first_page` issues for one tab link, if any. */
  function TabRequest(t: TabLink): Option<Request>
  {
    if Skipped(t.id) then None
    else
      var (key, parser) := Route(t.id);
      if parser.Some? then Some(Request(t.url, key, parser.value)) else None
  }

  /** `model` and `compare` are skipped; every other tab is fetched from its own
      URL, with the table's parser and slot, or with `parse_unknown` into a slot
      named by the tab id. */
  lemma TabRequestShape(t: TabLink)
    ensures var r := TabRequest(t);
      && (r.None? <==> Skipped(t.id))
      && (r.Some? ==> r.value.url == t.url)
      && (r.Some? ==> (r.value.parser == ParseUnknown <==> TabMapping(t.id).None?))
      && (r.Some? && TabMapping(t.id).None? ==> r.value.dataKey == t.id)
      && (r.Some? && TabMapping(t.id).Some? ==> r.value.dataKey in Slots)
  {
  }

  /** The requests `parse_first_page` issues, in the order of the tab links. */
  function Plan(tabs: seq<TabLink>): (requests: seq<Request>)
    ensures |requests| <= |tabs|
  {
    Collect(TabRequest, tabs)
  }

  /** One more tab link adds its request, if it has one, at the end. */
  lemma PlanNext(tabs: seq<TabLink>, i: nat)
    requires i < |tabs|
    ensures Plan(tabs[..i + 1]) == Plan(tabs[..i]) + (if TabRequest(tabs[i]).Some? then [TabRequest(tabs[i]).value] else [])
  {
    CollectNext(TabRequest, tabs, i);
  }

  function KeysOf(requests: seq<Request>): set<Key> {
    set r | r in requests :: r.dataKey
  }

  lemma KeysOfSnoc(requests: seq<Request>, r: Request)
    ensures KeysOf(requests + [r]) == KeysOf(requests) + {r.dataKey}
  {
    assert forall q :: q in requests + [r] <==> q in requests || q == r;
  }

  // ---------------------------------------------------------------------
  // The record as an object
  // ---------------------------------------------------------------------

  class CarData {
    var entries: map<Key, Value>
    var pending: set<Key>
    var tracking: bool

    function State(): CarState
      reads this
    {
      CarState(entries, pending, tracking)
    }

    ghost predicate Valid()
      reads this
    {
      WellFormed(State())
    }

    /** The record `start_requests` creates for one car. */
    constructor (base: map<Key, Value>)
      ensures Valid() && State() == Initial(base)
    {
      entries := InitialEntries(base);
      pending := {};
      tracking := true;
    }

    /**
     * `parse_first_page`: for every tab link that is not skipped, add its
     * data key to the pending set, then issue its request.
     */
    method ParseFirstPage(tabs: seq<TabLink>) returns (requests: seq<Request>, error: Option<Error>)
      requires Valid()
      modifies this
      ensures Valid()
      ensures entries == old(entries) && tracking == old(tracking)
      ensures old(tracking) ==>
        error == None && requests == Plan(tabs) && pending == old(pending) + KeysOf(requests)
      ensures !old(tracking) ==>
        requests == [] && pending == old(pending) && (error == None <==> Plan(tabs) == [])
      ensures error.Some? ==> error.value == AttributeError
    {
      requests, error := [], None;
      var i := 0;
      while i < |tabs|
        invariant 0 <= i <= |tabs|
        invariant entries == old(entries) && tracking == old(tracking)
        invariant tracking ==> requests == Plan(tabs[..i])
        invariant tracking ==> pending == old(pending) + KeysOf(requests)
        invariant !tracking ==> requests == [] && pending == old(pending) && Plan(tabs[..i]) == []
      {
        var tab := tabs[i];
        PlanNext(tabs, i);
        if !Skipped(tab.id) {
          var (key, parser) := Route(tab.id);
          if parser.Some? {
            var request := Request(tab.url, key, parser.value);
            assert TabRequest(tab) == Some(request);
            if !tracking {
              CollectPrefix(TabRequest, tabs, i + 1);
              error := Some(AttributeError);
              return;
            }
            KeysOfSnoc(requests, request);
            pending := pending + {key};
            requests := requests + [request];
          } else {
            // `if parser:` fails only for `model` and `compare`, skipped above
            assert false;
          }
        } else {
          assert TabRequest(tab) == None;
        }
        i := i + 1;
      }
      assert tabs[..i] == tabs;
    }

    /** `process_tab` for a response whose parser produced `parsed`. */
    method ProcessTab(key: Key, parsed: Parse) returns (out: Outcome)
      requires Valid()
      modifies this
      ensures Valid()
      ensures Step(State(), out) == Complete(old(State()), key, parsed)
    {
      if parsed.ParserRaised? {
        return Raised(parsed.error);
      }
      // car_data[data_key] = parser_func(response)
      if key == PendingTabs {
        tracking := false;
      } else {
        entries := entries[key := parsed.value];
      }
      // car_data["_pending_tabs"].remove(data_key)
      if !tracking {
        return Raised(AttributeError);
      }
      if key !in pending {
        return Raised(KeyError(key));
      }
      pending := pending - {key};
      out := YieldOf(Finalize(State()));
    }

    /** `parse_unknown`: a tab the table does not know completes with a warning placeholder. */
    method ParseUnknown(key: Key) returns (out: Outcome)
      requires Valid()
      modifies this
      ensures Valid()
      ensures Step(State(), out) == Complete(old(State()), key, Parsed(UnknownPlaceholder))
    {
      out := ProcessTab(key, Parsed(UnknownPlaceholder));
    }

    /** `handle_error` for a failed request whose meta holds `dataKey`. */
    method HandleError(dataKey: Option<Key>, error: string, url: string) returns (out: Outcome)
      requires Valid()
      modifies this
      ensures Valid()
      ensures Step(State(), out) == HandleFailure(old(State()), dataKey, error, url)
    {
      if dataKey.None? {
        return Raised(KeyError(Name("data_key")));
      }
      out := ProcessTab(dataKey.value, Parsed(ErrorPlaceholder(error, url)));
    }
  }
}
