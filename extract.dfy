/**
 * The tab parsers' logic over already-selected strings: the price tab, the
 * specification tables, the variants' feature count, the colour images and
 * the mileage table. Each CSS selection is an input: `.get()` is an
 * `Option<string>`, `.get("")` a string that is empty when nothing matched,
 * `.getall()` a sequence.
 */
module Extract {
  import opened Values
  import opened Text
  import opened Fill
  import opened FilterMap

  // ---------------------------------------------------------------------
  // Price tab
  // ---------------------------------------------------------------------

  const Rupee: char := '\U{20B9}'

  /** `value.strip().replace("₹", "").strip()`. */
  function CleanPrice(v: string): (r: string)
    ensures IsStripped(r) && Rupee !in r
  {
    Strip(RemoveAll(Strip(v), Rupee))
  }

  /** A price with no surrounding white space and no rupee sign comes out unchanged. */
  lemma CleanPriceKeepsCleanText(v: string)
    requires IsStripped(v) && Rupee !in v
    ensures CleanPrice(v) == v
  {
    StrippedIsFixpoint(v);
  }

  /** Cleaning a cleaned price changes nothing. */
  lemma CleanPriceIdempotent(v: string)
    ensures CleanPrice(CleanPrice(v)) == CleanPrice(v)
  {
    CleanPriceKeepsCleanText(CleanPrice(v));
  }

  datatype PriceSlot = ExShowroom | Rto | Insurance | OtherChargesTotal | OnRoad

  /** `price_mapping`: the element each price slot is read from. */
  function PriceId(slot: PriceSlot): string {
    match slot
    case ExShowroom => "price-ex-showroom"
    case Rto => "price-rto"
    case Insurance => "price-insurance"
    case OtherChargesTotal => "price-other-charges"
    case OnRoad => "price-on-road"
  }

  /** The order the loop visits `price_mapping` in. */
  const PriceSlots: seq<PriceSlot> := [ExShowroom, Rto, Insurance, OtherChargesTotal, OnRoad]

  /** No slot occurs twice in `slots`. */
  ghost predicate Once(slots: seq<PriceSlot>) {
    slots == [] || (slots[|slots| - 1] !in slots[..|slots| - 1] && Once(slots[..|slots| - 1]))
  }

  /** The loop visits every slot exactly once. */
  lemma PriceSlotsOnce()
    ensures forall slot :: slot in PriceSlots
    ensures Once(PriceSlots)
  {
    forall slot ensures slot in PriceSlots {
      match slot
      case ExShowroom => assert PriceSlots[0] == slot;
      case Rto => assert PriceSlots[1] == slot;
      case Insurance => assert PriceSlots[2] == slot;
      case OtherChargesTotal => assert PriceSlots[3] == slot;
      case OnRoad => assert PriceSlots[4] == slot;
    }
    var s1 := [ExShowroom];
    var s2 := s1 + [Rto];
    var s3 := s2 + [Insurance];
    var s4 := s3 + [OtherChargesTotal];
    assert Once(s1) by { assert s1[..0] == []; }
    assert Once(s2) by { assert s2[..1] == s1; }
    assert Once(s3) by { assert s3[..2] == s2; }
    assert Once(s4) by { assert s4[..3] == s3; }
    assert PriceSlots[..4] == s4;
  }

  datatype OtherCharges = OtherCharges(total: Option<string>, breakdown: map<string, string>)

  datatype PriceData = PriceData(
    exShowroom: Option<string>,
    rto: Option<string>,
    insurance: Option<string>,
    otherCharges: OtherCharges,
    onRoad: Option<string>,
    city: string)

  function PriceAt(p: PriceData, slot: PriceSlot): Option<string> {
    match slot
    case ExShowroom => p.exShowroom
    case Rto => p.rto
    case Insurance => p.insurance
    case OtherChargesTotal => p.otherCharges.total
    case OnRoad => p.onRoad
  }

  /** `price_data[data_key] = value`; the dotted key `other_charges.total` is
      split and written into the nested `other_charges` dictionary. */
  function SetPrice(p: PriceData, slot: PriceSlot, v: string): (r: PriceData)
    ensures PriceAt(r, slot) == Some(v)
    ensures forall other | other != slot :: PriceAt(r, other) == PriceAt(p, other)
    ensures r.otherCharges.breakdown == p.otherCharges.breakdown && r.city == p.city
  {
    match slot
    case ExShowroom => p.(exShowroom := Some(v))
    case Rto => p.(rto := Some(v))
    case Insurance => p.(insurance := Some(v))
    case OtherChargesTotal => p.(otherCharges := p.otherCharges.(total := Some(v)))
    case OnRoad => p.(onRoad := Some(v))
  }

  /** `price_data["other_charges"]["breakdown"]` replaced, every price slot kept. */
  function SetBreakdown(p: PriceData, breakdown: map<string, string>): (r: PriceData)
    ensures forall slot :: PriceAt(r, slot) == PriceAt(p, slot)
    ensures r.otherCharges.breakdown == breakdown && r.city == p.city
  {
    p.(otherCharges := p.otherCharges.(breakdown := breakdown))
  }

  /** What the price loop leaves in a slot whose selector returned `raw`:
      the cleaned text when it found a non-empty one, `None` otherwise. */
  function PriceValue(raw: Option<string>): (r: Option<string>)
    ensures r.Some? <==> raw.Some? && raw.value != ""
    ensures r.Some? ==> IsStripped(r.value) && Rupee !in r.value
  {
    if raw.Some? && raw.value != "" then Some(CleanPrice(raw.value)) else None
  }

  /** The `::text` of the element with the given id, when the page has one. */
  function Lookup(found: map<string, string>, id: string): Option<string> {
    if id in found then Some(found[id]) else None
  }

  /** A labelled row read with `.get("").strip()` on both cells. */
  datatype LabelledRow = LabelledRow(caption: string, value: string)

  /** A labelled row is kept, under its lower-cased label, when both cells are non-empty after stripping. */
  function LabelledEntry(row: LabelledRow): (e: Option<(string, string)>)
    ensures e.Some? <==> Strip(row.caption) != "" && Strip(row.value) != ""
    ensures e.Some? ==> e.value == (Lower(Strip(row.caption)), Strip(row.value))
  {
    var caption, value := Strip(row.caption), Strip(row.value);
    if caption != "" && value != "" then Some((Lower(caption), value)) else None
  }

  function LabelledEntries(rows: seq<LabelledRow>): (es: seq<Option<(string, string)>>)
    ensures |es| == |rows|
  {
    seq(|rows|, i requires 0 <= i < |rows| => LabelledEntry(rows[i]))
  }

  /** One iteration of the labelled-row loop, as a fill step. */
  lemma LabelledPut(rows: seq<LabelledRow>, i: nat, d: map<string, string>)
    requires i < |rows|
    ensures var caption, value := Strip(rows[i].caption), Strip(rows[i].value);
      Put(d, LabelledEntries(rows)[i]) == if caption != "" && value != "" then d[Lower(caption) := value] else d
  {
    assert LabelledEntries(rows)[i] == LabelledEntry(rows[i]);
  }

  /** The `label.lower(): value` dictionary a loop over labelled rows fills. */
  method FillLabelled(rows: seq<LabelledRow>) returns (d: map<string, string>)
    ensures d == Filled(LabelledEntries(rows))
    ensures LastWrite(LabelledEntries(rows), d)
  {
    ghost var es := LabelledEntries(rows);
    d := map[];
    var i := 0;
    while i < |rows|
      invariant 0 <= i <= |rows|
      invariant d == Filled(es[..i])
    {
      var caption := Strip(rows[i].caption);
      var value := Strip(rows[i].value);
      LabelledPut(rows, i, d);
      FilledNext(es, i);
      if caption != "" && value != "" {
        d := d[Lower(caption) := value];
      }
      i := i + 1;
    }
    FilledAll(es);
    FilledIsLastWrite(es);
  }

  /** A kept row's key is a non-empty, lower-cased, stripped label and its value non-empty and stripped. */
  lemma LabelledEntryNormal(row: LabelledRow)
    ensures var e := LabelledEntry(row);
      e.Some? ==> e.value.0 != "" && IsLowered(e.value.0) && IsStripped(e.value.0) && e.value.1 != "" && IsStripped(e.value.1)
  {
    LowerKeepsStripped(Strip(row.caption));
  }

  /** A dictionary filled from labelled rows has stripped, lower-cased keys and stripped, non-empty values. */
  lemma LabelledKeysNormalised(rows: seq<LabelledRow>, d: map<string, string>)
    requires LastWrite(LabelledEntries(rows), d)
    ensures forall k | k in d :: k != "" && IsLowered(k) && IsStripped(k) && d[k] != "" && IsStripped(d[k])
  {
    var es := LabelledEntries(rows);
    forall k | k in d ensures k != "" && IsLowered(k) && IsStripped(k) && d[k] != "" && IsStripped(d[k]) {
      var i :| 0 <= i < |es| && es[i] == Some((k, d[k]));
      assert LabelledEntry(rows[i]) == Some((k, d[k]));
      LabelledEntryNormal(rows[i]);
    }
  }

  lemma LowerKeepsStripped(s: string)
    requires IsStripped(s)
    ensures IsStripped(Lower(s))
  {
  }

  /** The price data once the loop over `price_mapping` has visited `slots`, in order. */
  function ReadSlots(found: map<string, string>, slots: seq<PriceSlot>): (p: PriceData)
    ensures p.otherCharges.breakdown == map[] && p.city == "New Delhi"
  {
    if slots == [] then PriceData(None, None, None, OtherCharges(None, map[]), None, "New Delhi")
    else
      var p := ReadSlots(found, slots[..|slots| - 1]);
      var slot := slots[|slots| - 1];
      var value := Lookup(found, PriceId(slot));
      if value.Some? && value.value != "" then SetPrice(p, slot, CleanPrice(value.value)) else p
  }

  /** After visiting distinct slots, a visited slot holds its cleaned element
      text (or `None`), and an unvisited slot is still `None`. */
  lemma {:induction false} ReadSlotsAt(found: map<string, string>, slots: seq<PriceSlot>, slot: PriceSlot)
    requires Once(slots)
    ensures PriceAt(ReadSlots(found, slots), slot) == if slot in slots then PriceValue(Lookup(found, PriceId(slot))) else None
  {
    if slots != [] {
      var n := |slots| - 1;
      var init, last := slots[..n], slots[n];
      ReadSlotsAt(found, init, slot);
      assert slots == init + [last];
    }
  }

  lemma ReadSlotsNext(found: map<string, string>, slots: seq<PriceSlot>, i: nat)
    requires i < |slots|
    ensures var value := Lookup(found, PriceId(slots[i]));
      ReadSlots(found, slots[..i + 1])
        == if value.Some? && value.value != "" then SetPrice(ReadSlots(found, slots[..i]), slots[i], CleanPrice(value.value))
           else ReadSlots(found, slots[..i])
  {
    assert slots[..i + 1][..i] == slots[..i];
  }

  /** The loop over `price_mapping`: each slot read from its element and
      cleaned, left `None` when the element is missing or empty. */
  method ReadPriceSlots(found: map<string, string>) returns (p: PriceData)
    ensures forall slot :: PriceAt(p, slot) == PriceValue(Lookup(found, PriceId(slot)))
    ensures p.otherCharges.breakdown == map[] && p.city == "New Delhi"
  {
    p := PriceData(None, None, None, OtherCharges(None, map[]), None, "New Delhi");
    var i := 0;
    while i < |PriceSlots|
      invariant 0 <= i <= |PriceSlots|
      invariant p == ReadSlots(found, PriceSlots[..i])
    {
      var slot := PriceSlots[i];
      var value := Lookup(found, PriceId(slot));
      ReadSlotsNext(found, PriceSlots, i);
      if value.Some? && value.value != "" {
        p := SetPrice(p, slot, CleanPrice(value.value));
      }
      i := i + 1;
    }
    assert PriceSlots[..|PriceSlots|] == PriceSlots;
    PriceSlotsOnce();
    forall slot ensures PriceAt(p, slot) == PriceValue(Lookup(found, PriceId(slot))) {
      ReadSlotsAt(found, PriceSlots, slot);
    }
  }

  /** `_extract_price_data`: five slots read through the mapping and cleaned,
      the charges breakdown filled from the labelled rows, the city fixed. */
  method ExtractPrice(found: map<string, string>, charges: seq<LabelledRow>) returns (p: PriceData)
    ensures forall slot :: PriceAt(p, slot) == PriceValue(Lookup(found, PriceId(slot)))
    ensures LastWrite(LabelledEntries(charges), p.otherCharges.breakdown)
    ensures p.city == "New Delhi"
  {
    p := ReadPriceSlots(found);
    var breakdown := FillLabelled(charges);
    p := SetBreakdown(p, breakdown);
  }

  // ---------------------------------------------------------------------
  // Specification tables
  // ---------------------------------------------------------------------

  /** One table row: the `.get()` of its first and of its last cell. */
  datatype SpecRow = SpecRow(key: Option<string>, value: Option<string>)

  /** A row is kept when both raw cells are non-empty; key and value are stored stripped. */
  function SpecEntry(row: SpecRow): (e: Option<(string, string)>)
    ensures e.Some? <==> row.key.Some? && row.key.value != "" && row.value.Some? && row.value.value != ""
    ensures e.Some? ==> e.value == (Strip(row.key.value), Strip(row.value.value))
  {
    if row.key.Some? && row.key.value != "" && row.value.Some? && row.value.value != "" then
      Some((Strip(row.key.value), Strip(row.value.value)))
    else None
  }

  function SpecEntries(rows: seq<SpecRow>): (es: seq<Option<(string, string)>>)
    ensures |es| == |rows|
  {
    seq(|rows|, i requires 0 <= i < |rows| => SpecEntry(rows[i]))
  }

  /** One iteration of the specification-row loop, as a fill step. */
  lemma SpecPut(rows: seq<SpecRow>, i: nat, d: map<string, string>)
    requires i < |rows|
    ensures var key, value := rows[i].key, rows[i].value;
      Put(d, SpecEntries(rows)[i])
        == if key.Some? && key.value != "" && value.Some? && value.value != "" then d[Strip(key.value) := Strip(value.value)] else d
  {
    assert SpecEntries(rows)[i] == SpecEntry(rows[i]);
  }

  /** `extract_spec_section`: the rows of one specification table as a dictionary. */
  method ExtractSpecSection(rows: seq<SpecRow>) returns (specs: map<string, string>)
    ensures LastWrite(SpecEntries(rows), specs)
  {
    ghost var es := SpecEntries(rows);
    specs := map[];
    var i := 0;
    while i < |rows|
      invariant 0 <= i <= |rows|
      invariant specs == Filled(es[..i])
    {
      var key, value := rows[i].key, rows[i].value;
      SpecPut(rows, i, specs);
      FilledNext(es, i);
      if key.Some? && key.value != "" && value.Some? && value.value != "" {
        specs := specs[Strip(key.value) := Strip(value.value)];
      }
      i := i + 1;
    }
    FilledAll(es);
    FilledIsLastWrite(es);
  }

  /** A specification table's keys and values come out stripped; a row with an
      empty cell, or with no cell at all, leaves no entry. */
  lemma SpecSectionStripped(rows: seq<SpecRow>, specs: map<string, string>)
    requires LastWrite(SpecEntries(rows), specs)
    ensures forall k | k in specs :: IsStripped(k) && IsStripped(specs[k])
    ensures forall k | k in specs :: exists i | 0 <= i < |rows| ::
      rows[i].key.Some? && rows[i].value.Some? && k == Strip(rows[i].key.value) && specs[k] == Strip(rows[i].value.value)
  {
    var es := SpecEntries(rows);
    forall k | k in specs ensures IsStripped(k) && IsStripped(specs[k]) && exists i | 0 <= i < |rows| ::
      rows[i].key.Some? && rows[i].value.Some? && k == Strip(rows[i].key.value) && specs[k] == Strip(rows[i].value.value)
    {
      var i :| 0 <= i < |es| && es[i] == Some((k, specs[k])) && forall j | i < j < |es| :: !Mentions(es[j], k);
      assert es[i] == SpecEntry(rows[i]);
    }
  }

  datatype Specifications = Specifications(
    engine: map<string, string>,
    dimensions: map<string, string>,
    transmission: map<string, string>,
    features: map<string, string>)

  /** `_extract_specifications_data`: the four tables, each read on its own. */
  method ExtractSpecifications(engine: seq<SpecRow>, dimensions: seq<SpecRow>,
                               transmission: seq<SpecRow>, features: seq<SpecRow>)
    returns (s: Specifications)
    ensures LastWrite(SpecEntries(engine), s.engine)
    ensures LastWrite(SpecEntries(dimensions), s.dimensions)
    ensures LastWrite(SpecEntries(transmission), s.transmission)
    ensures LastWrite(SpecEntries(features), s.features)
  {
    var e := ExtractSpecSection(engine);
    var d := ExtractSpecSection(dimensions);
    var t := ExtractSpecSection(transmission);
    var f := ExtractSpecSection(features);
    s := Specifications(e, d, t, f);
  }

  // ---------------------------------------------------------------------
  // Variants
  // ---------------------------------------------------------------------

  /** `int(more.split("+")[1].split()[0].strip())`: the number in the word after
      the first `+`; None where Python raises (no `+`, no word, not an integer). */
  function PlusCount(more: string): (r: Option<int>)
    ensures r.Some? ==> '+' in more
  {
    if '+' !in more then None
    else
      match FirstWord(BeforeFirst(AfterFirst(more, '+'), '+'))
      case None => None
      case Some(w) => ParseInt(Strip(w))
  }

  /** `total_features`: the `+N` count plus the features listed, or the listed
      count alone when the button text is empty or its count cannot be read. */
  function TotalFeatures(more: string, listed: nat): (t: int)
    ensures more == "" || PlusCount(more).None? ==> t == listed
    ensures more != "" && PlusCount(more).Some? ==> t == PlusCount(more).value + listed
  {
    if more == "" then listed
    else
      match PlusCount(more)
      case Some(n) => n + listed
      case None => listed
  }

  /** `str(n)` is one word, free of `+`, that `int()` reads back as `n`. */
  lemma ShownIntIsWord(n: int)
    ensures var w := ShowInt(n);
      && w != [] && '+' !in w && IsStripped(w) && ParseInt(w) == Some(n)
      && forall i | 0 <= i < |w| :: !IsSpace(w[i])
  {
    var w := ShowInt(n);
    ParseShowInt(n);
    ShowNatIsDigitRun(if n < 0 then -n else n);
    assert forall i | 0 <= i < |w| :: IsDigit(w[i]) || w[i] == '-' by {
      if n < 0 {
        assert forall i | 1 <= i < |w| :: w[i] == ShowNat(-n)[i - 1];
      }
    }
    assert '+' !in w by {
      forall c | c in w ensures c != '+' {
        var i :| 0 <= i < |w| && w[i] == c;
      }
    }
  }

  /** A button that reads `... +N more` yields N for every integer N. */
  lemma PlusCountReadsCount(prefix: string, n: int, rest: string)
    requires '+' !in prefix && '+' !in rest
    requires rest == [] || IsSpace(rest[0])
    ensures PlusCount(prefix + ['+'] + ShowInt(n) + rest) == Some(n)
  {
    var w := ShowInt(n);
    ShownIntIsWord(n);
    WordAfterPlus(prefix, w, rest);
    StrippedIsFixpoint(w);
    PlusCountOf(prefix + ['+'] + w + rest, w, n);
  }

  /** The word after the only `+` is the first word of the text the splits leave. */
  lemma WordAfterPlus(prefix: string, w: string, rest: string)
    requires '+' !in prefix && '+' !in w && '+' !in rest && w != []
    requires forall i | 0 <= i < |w| :: !IsSpace(w[i])
    requires rest == [] || IsSpace(rest[0])
    ensures var more := prefix + ['+'] + w + rest;
      '+' in more && FirstWord(BeforeFirst(AfterFirst(more, '+'), '+')) == Some(w)
  {
    var more, after := prefix + ['+'] + w + rest, w + rest;
    ConcatRegroup(prefix, ['+'], w, rest);
    AfterFirstOfSplit(prefix, '+', after);
    assert more[|prefix|] == '+';
    assert '+' !in after;
    BeforeFirstAbsent(after, '+');
    FirstWordStart(w, rest);
  }

  lemma PlusCountOf(more: string, w: string, n: int)
    requires '+' in more
    requires FirstWord(BeforeFirst(AfterFirst(more, '+'), '+')) == Some(w)
    requires ParseInt(Strip(w)) == Some(n)
    ensures PlusCount(more) == Some(n)
  {
  }

  /** `features.append(feature.strip())` for each non-empty feature text, in order. */
  function Features(texts: seq<string>): (fs: seq<string>)
    ensures |fs| <= |texts|
  {
    if texts == [] then []
    else
      var init := Features(texts[..|texts| - 1]);
      var last := texts[|texts| - 1];
      if last != "" then init + [Strip(last)] else init
  }

  /** Every feature is stripped; none is dropped when no text is empty. */
  lemma {:induction false} FeaturesShape(texts: seq<string>)
    ensures forall f | f in Features(texts) :: IsStripped(f)
    ensures (forall i | 0 <= i < |texts| :: texts[i] != "") ==> |Features(texts)| == |texts|
  {
    if texts != [] {
      var init := texts[..|texts| - 1];
      FeaturesShape(init);
      assert forall i | 0 <= i < |init| :: init[i] == texts[i];
    }
  }

  lemma FeaturesNext(texts: seq<string>, i: nat)
    requires i < |texts|
    ensures Features(texts[..i + 1]) == Features(texts[..i]) + (if texts[i] != "" then [Strip(texts[i])] else [])
  {
    assert texts[..i + 1][..i] == texts[..i];
  }

  method CollectFeatures(texts: seq<string>) returns (features: seq<string>)
    ensures features == Features(texts)
  {
    features := [];
    var i := 0;
    while i < |texts|
      invariant 0 <= i <= |texts|
      invariant features == Features(texts[..i])
    {
      FeaturesNext(texts, i);
      if texts[i] != "" {
        features := features + [Strip(texts[i])];
      }
      i := i + 1;
    }
    assert texts[..|texts|] == texts;
  }

  /** The selections of one `div#car-variants` block. */
  datatype VariantInput = VariantInput(
    name: string,
    price: string,
    specRows: seq<LabelledRow>,
    featureTexts: seq<string>,
    moreFeatures: string,
    tag: string)

  datatype Variant = Variant(
    name: string,
    price: string,
    specifications: map<string, string>,
    features: seq<string>,
    totalFeatures: int,
    tag: Option<string>)

  /** The variant record built from one block. */
  ghost function VariantFrom(v: VariantInput): Variant {
    var features := Features(v.featureTexts);
    var tag := Strip(v.tag);
    Variant(Strip(v.name), Strip(v.price), Filled(LabelledEntries(v.specRows)), features,
            TotalFeatures(v.moreFeatures, |features|), if tag != "" then Some(tag) else None)
  }

  /** A variant's specifications keep the last value of every lower-cased
      label, and its total counts the listed features plus the `+N` the
      button shows, when it can be read. */
  lemma VariantFromContents(v: VariantInput)
    ensures LastWrite(LabelledEntries(v.specRows), VariantFrom(v).specifications)
    ensures |VariantFrom(v).features| <= |v.featureTexts|
    ensures PlusCount(v.moreFeatures).Some? ==>
      VariantFrom(v).totalFeatures == PlusCount(v.moreFeatures).value + |VariantFrom(v).features|
    ensures PlusCount(v.moreFeatures).None? ==> VariantFrom(v).totalFeatures == |VariantFrom(v).features|
    ensures VariantFrom(v).tag.Some? ==> VariantFrom(v).tag.value != "" && IsStripped(VariantFrom(v).tag.value)
  {
    FilledIsLastWrite(LabelledEntries(v.specRows));
  }

  /** One pass of `_extract_variants_data`'s loop. */
  method ExtractVariant(v: VariantInput) returns (r: Variant)
    ensures r == VariantFrom(v)
  {
    var name := Strip(v.name);
    var price := Strip(v.price);
    var specs := FillLabelled(v.specRows);
    var features := CollectFeatures(v.featureTexts);
    var total := TotalFeatures(v.moreFeatures, |features|);
    var tag := Strip(v.tag);
    r := Variant(name, price, specs, features, total, if tag != "" then Some(tag) else None);
  }

  /** The variant records of the blocks, in page order. */
  ghost function VariantsFrom(blocks: seq<VariantInput>): (vs: seq<Variant>)
    ensures |vs| == |blocks|
  {
    if blocks == [] then [] else VariantsFrom(blocks[..|blocks| - 1]) + [VariantFrom(blocks[|blocks| - 1])]
  }

  /** The variant at position i is the one built from block i. */
  lemma {:induction false} VariantsAt(blocks: seq<VariantInput>, i: nat)
    requires i < |blocks|
    ensures VariantsFrom(blocks)[i] == VariantFrom(blocks[i])
    decreases |blocks|
  {
    var init := blocks[..|blocks| - 1];
    if i < |blocks| - 1 {
      VariantsAt(init, i);
      assert init[i] == blocks[i];
    }
  }

  lemma VariantsNext(blocks: seq<VariantInput>, i: nat)
    requires i < |blocks|
    ensures VariantsFrom(blocks[..i + 1]) == VariantsFrom(blocks[..i]) + [VariantFrom(blocks[i])]
  {
    assert blocks[..i + 1][..i] == blocks[..i];
  }

  /** `_extract_variants_data`: one variant record per block, in page order. */
  method ExtractVariants(blocks: seq<VariantInput>) returns (variants: seq<Variant>)
    ensures variants == VariantsFrom(blocks)
  {
    variants := [];
    var i := 0;
    while i < |blocks|
      invariant 0 <= i <= |blocks|
      invariant variants == VariantsFrom(blocks[..i])
    {
      var r := ExtractVariant(blocks[i]);
      VariantsNext(blocks, i);
      variants := variants + [r];
      i := i + 1;
    }
    assert blocks[..|blocks|] == blocks;
  }

  // ---------------------------------------------------------------------
  // Colours
  // ---------------------------------------------------------------------

  /** `srcset.split(",")[-1].split(" ")[0].strip()`, as the colour loop computes
      the high-quality URL. */
  function HqUrlAsWritten(srcset: string): (r: string)
    ensures IsStripped(r) && ',' !in r && ' ' !in r
  {
    var last := AfterLast(srcset, ',');
    var first := BeforeFirst(last, ' ');
    BeforeFirstKeeps(last, ' ');
    StripKeeps(first);
    Strip(first)
  }

  /** After the last comma comes a space: the as-written URL is empty. */
  lemma HqUrlAsWrittenEmpty(prefix: string, tail: string)
    requires prefix == [] || prefix[|prefix| - 1] == ','
    requires tail != [] && tail[0] == ' ' && ',' !in tail
    ensures HqUrlAsWritten(prefix + tail) == ""
  {
    AfterLastOfSplit(prefix, ',', tail);
    assert BeforeFirst(tail, ' ') == "";
  }

  /** A srcset ending in `,<url> <descriptor>`, with no space after the comma,
      yields that url as written. */
  lemma HqUrlAsWrittenOfCandidate(prefix: string, url: string, descriptor: string)
    requires prefix == [] || prefix[|prefix| - 1] == ','
    requires url != [] && ',' !in url && ',' !in descriptor
    requires forall i | 0 <= i < |url| :: !IsSpace(url[i])
    requires descriptor == [] || descriptor[0] == ' '
    ensures HqUrlAsWritten(prefix + url + descriptor) == url
  {
    LastCandidate(prefix, url, descriptor);
    WordBeforeSpace(url, descriptor);
    StrippedIsFixpoint(url);
  }

  /** The text after the last comma is the candidate that follows it. */
  lemma LastCandidate(prefix: string, url: string, descriptor: string)
    requires prefix == [] || prefix[|prefix| - 1] == ','
    requires ',' !in url && ',' !in descriptor
    ensures AfterLast(prefix + url + descriptor, ',') == url + descriptor
  {
    var tail := url + descriptor;
    assert ',' !in tail;
    assert prefix + url + descriptor == prefix + tail;
    AfterLastOfSplit(prefix, ',', tail);
  }

  /** A word free of white space, then nothing or a space: the split on `" "` keeps the word. */
  lemma WordBeforeSpace(url: string, descriptor: string)
    requires url != [] && forall i | 0 <= i < |url| :: !IsSpace(url[i])
    requires descriptor == [] || descriptor[0] == ' '
    ensures BeforeFirst(url + descriptor, ' ') == url
  {
    NoSpaceInWord(url);
    var s := url + descriptor;
    var r := BeforeFirst(s, ' ');
    Member(url, |r|);
    Member(r, |url|);
  }

  lemma NoSpaceInWord(w: string)
    requires forall i | 0 <= i < |w| :: !IsSpace(w[i])
    ensures ' ' !in w
  {
    forall i | 0 <= i < |w| ensures w[i] != ' ' {
      assert !IsSpace(w[i]);
    }
  }

  /** A srcset whose candidates are separated by `", "` (the usual form, such as
      `"a.jpg 1x, b.jpg 2x"`) loses its last URL: the text after the last comma
      starts with a space, so the split on `" "` yields an empty first piece and
      the plain `src` is kept, where the last candidate's URL was meant. */
  lemma HqUrlAsWrittenLosesSpacedCandidate(src: string, prefix: string, ws: string, url: string, descriptor: string)
    requires prefix == [] || prefix[|prefix| - 1] == ','
    requires ws != [] && ws[0] == ' ' && AllSpace(ws) && ',' !in ws
    requires url != [] && ',' !in url && ',' !in descriptor
    requires forall i | 0 <= i < |url| :: !IsSpace(url[i])
    requires descriptor == [] || IsSpace(descriptor[0])
    ensures HqImageAsWritten(src, prefix + ws + url + descriptor) == src
    ensures HqImage(src, prefix + ws + url + descriptor) == url
  {
    HqUrlOfCandidate(prefix, ws, url, descriptor);
    var tail := ws + url + descriptor;
    assert ',' !in tail;
    ConcatRegroup(prefix, ws, url, descriptor);
    HqUrlAsWrittenEmpty(prefix, tail);
  }

  /** The URL of the last srcset candidate: the first word after the last comma. */
  function HqUrl(srcset: string): (r: string)
    ensures ',' !in r && forall i | 0 <= i < |r| :: !IsSpace(r[i])
  {
    var last := AfterLast(srcset, ',');
    match FirstWord(last)
    case None => ""
    case Some(w) =>
      assert forall c | c in w :: c in last;
      w
  }

  /** A srcset ending in `, <url> <descriptor>` yields that url, whatever white
      space follows the comma. */
  lemma HqUrlOfCandidate(prefix: string, ws: string, url: string, descriptor: string)
    requires prefix == [] || prefix[|prefix| - 1] == ','
    requires AllSpace(ws) && url != [] && ',' !in url && ',' !in descriptor && ',' !in ws
    requires forall i | 0 <= i < |url| :: !IsSpace(url[i])
    requires descriptor == [] || IsSpace(descriptor[0])
    ensures HqUrl(prefix + ws + url + descriptor) == url
  {
    var tail := ws + url + descriptor;
    assert ',' !in tail;
    assert prefix + ws + url + descriptor == prefix + tail;
    AfterLastOfSplit(prefix, ',', tail);
    FirstWordOf(ws, url, descriptor);
  }

  /** `hq_url if hq_url else img_url`, with `hq_url` left empty for an empty srcset. */
  function HqImageAsWritten(src: string, srcset: string): (r: string)
    ensures src != "" ==> r != ""
    ensures srcset == "" ==> r == src
    ensures r != src ==> r == HqUrlAsWritten(srcset) && r != ""
    ensures srcset != "" && HqUrlAsWritten(srcset) != "" ==> r == HqUrlAsWritten(srcset)
  {
    var hq := if srcset != "" then HqUrlAsWritten(srcset) else "";
    if hq != "" then hq else src
  }

  /** The evidently intended high-quality image: the last srcset candidate's
      URL, or the plain src when there is none. */
  function HqImage(src: string, srcset: string): (r: string)
    ensures src != "" ==> r != ""
    ensures srcset == "" ==> r == src
    ensures r != src ==> r == HqUrl(srcset) && r != ""
    ensures srcset != "" && HqUrl(srcset) != "" ==> r == HqUrl(srcset)
  {
    var hq := if srcset != "" then HqUrl(srcset) else "";
    if hq != "" then hq else src
  }

  /** The selections of one `div[data-selected]` block: the `p` text, the `id`
      attribute, and the image's `src` and `srcset`. */
  datatype ColourSection = ColourSection(text: string, id: string, src: string, srcset: string)

  datatype Colour = Colour(name: string, image: string, hqImage: string)

  /** One block's colour: named by its text, or by its id when the text is
      blank; kept only with a name and an image. The high-quality image is
      computed as the code writes it. */
  function ColourOf(sec: ColourSection): (c: Option<Colour>)
    ensures c.Some? ==> c.value.name != "" && c.value.image == sec.src && c.value.image != ""
  {
    var text := Strip(sec.text);
    var name := if text != "" then text else Strip(sec.id);
    if name != "" && sec.src != "" then Some(Colour(name, sec.src, HqImageAsWritten(sec.src, sec.srcset))) else None
  }

  /** A block yields a colour exactly when it has a name (its text, else its id)
      and an image; the colour carries that name, the image and the
      high-quality image. */
  lemma ColourOfShape(sec: ColourSection)
    ensures var c := ColourOf(sec);
      && (c.Some? <==> (Strip(sec.text) != "" || Strip(sec.id) != "") && sec.src != "")
      && (c.Some? ==> c.value.name == (if Strip(sec.text) != "" then Strip(sec.text) else Strip(sec.id)))
      && (c.Some? ==> c.value.image == sec.src && c.value.hqImage == HqImageAsWritten(sec.src, sec.srcset))
  {
  }

  /** The block's colour with the evidently intended high-quality image: the
      same colour, kept under the same test, with the last candidate's URL. */
  function ColourOfIntended(sec: ColourSection): (c: Option<Colour>)
    ensures c.Some? <==> ColourOf(sec).Some?
    ensures c.Some? ==> c.value == ColourOf(sec).value.(hqImage := HqImage(sec.src, sec.srcset))
  {
    match ColourOf(sec)
    case None => None
    case Some(c) => Some(c.(hqImage := HqImage(sec.src, sec.srcset)))
  }

  /** For a named block whose srcset separates candidates by `", "`, the colour
      the code builds keeps the plain src as its high-quality image, while the
      intended colour carries the last candidate's URL. */
  lemma ColourLosesSpacedCandidate(sec: ColourSection, prefix: string, ws: string, url: string, descriptor: string)
    requires Strip(sec.text) != "" && sec.src != ""
    requires sec.srcset == prefix + ws + url + descriptor
    requires prefix == [] || prefix[|prefix| - 1] == ','
    requires ws != [] && ws[0] == ' ' && AllSpace(ws) && ',' !in ws
    requires url != [] && ',' !in url && ',' !in descriptor
    requires forall i | 0 <= i < |url| :: !IsSpace(url[i])
    requires descriptor == [] || IsSpace(descriptor[0])
    ensures ColourOf(sec).Some? && ColourOf(sec).value.hqImage == sec.src
    ensures ColourOfIntended(sec).Some? && ColourOfIntended(sec).value.hqImage == url
  {
    ColourOfShape(sec);
    HqUrlAsWrittenLosesSpacedCandidate(sec.src, prefix, ws, url, descriptor);
  }

  /** The colours of the blocks, in page order, skipping the blocks that yield none. */
  function Colours(sections: seq<ColourSection>): seq<Colour> {
    Collect(ColourOf, sections)
  }

  /** Every colour has a stripped name, an image and a high-quality image. */
  lemma ColoursWellFormed(sections: seq<ColourSection>)
    ensures forall c | c in Colours(sections) :: c.name != "" && IsStripped(c.name) && c.image != "" && c.hqImage != ""
  {
    forall c | c in Colours(sections) ensures c.name != "" && IsStripped(c.name) && c.image != "" && c.hqImage != "" {
      CollectFrom(ColourOf, sections, c);
      var j :| 0 <= j < |sections| && ColourOf(sections[j]) == Some(c);
      ColourOfShape(sections[j]);
    }
  }

  /** Each colour comes from some block. */
  lemma ColoursFromBlocks(sections: seq<ColourSection>)
    ensures forall c | c in Colours(sections) :: exists j | 0 <= j < |sections| :: ColourOf(sections[j]) == Some(c)
  {
    forall c | c in Colours(sections) ensures exists j | 0 <= j < |sections| :: ColourOf(sections[j]) == Some(c) {
      CollectFrom(ColourOf, sections, c);
    }
  }

  /** Each block that yields a colour contributes it. */
  lemma BlocksInColours(sections: seq<ColourSection>)
    ensures forall j | 0 <= j < |sections| && ColourOf(sections[j]).Some? :: ColourOf(sections[j]).value in Colours(sections)
  {
    forall j | 0 <= j < |sections| && ColourOf(sections[j]).Some? ensures ColourOf(sections[j]).value in Colours(sections) {
      CollectHas(ColourOf, sections, j);
    }
  }

  /** `_extract_colours_data`: the loop over the colour blocks, each block's
      body being `ColourOf`. */
  method ExtractColours(sections: seq<ColourSection>) returns (colours: seq<Colour>)
    ensures colours == Colours(sections)
  {
    colours := [];
    var i := 0;
    while i < |sections|
      invariant 0 <= i <= |sections|
      invariant colours == Colours(sections[..i])
    {
      CollectNext(ColourOf, sections, i);
      var c := ColourOf(sections[i]);
      if c.Some? {
        colours := colours + [c.value];
      }
      i := i + 1;
    }
    assert sections[..|sections|] == sections;
  }

  // ---------------------------------------------------------------------
  // Mileage table
  // ---------------------------------------------------------------------

  /** One table row: the fuel cell, the transmission cell and the mileage cell, each `.get("")`. */
  datatype MileageRow = MileageRow(fuelCell: string, transmission: string, mileage: string)

  /** The three readings the `mileage_data` dictionary has room for. */
  datatype MileageSlot = PetrolManual | PetrolAutomatic | CngManual

  /** `mileage_data`: the readings found (an absent slot is `None`), the overview
      text, and `fuel_tank_capacity`, which no row ever fills. */
  datatype MileageData = MileageData(readings: map<MileageSlot, string>, overview: Option<string>)

  /** `fuel_cell.lower().strip()`, cut before a `(` and stripped again. */
  function FuelType(cell: string): (r: string)
    ensures |r| <= |cell|
  {
    var f := Strip(Lower(cell));
    if '(' in f then Strip(BeforeFirst(f, '(')) else f
  }

  /** A fuel type is stripped, lower-case and free of `(`. */
  lemma FuelTypeNormal(cell: string)
    ensures var r := FuelType(cell); IsStripped(r) && IsLowered(r) && '(' !in r
  {
    var f := Strip(Lower(cell));
    StripKeeps(Lower(cell));
    if '(' in f {
      var b := BeforeFirst(f, '(');
      BeforeFirstKeeps(f, '(');
      StripKeeps(b);
    }
  }

  /** A normalised fuel type normalises to itself. */
  lemma FuelTypeIdempotent(cell: string)
    ensures FuelType(FuelType(cell)) == FuelType(cell)
  {
    var f := FuelType(cell);
    FuelTypeNormal(cell);
    LowerOfLowered(f);
    StrippedIsFixpoint(f);
  }

  /** The overview line: stripped, when the selector found text. */
  function Overview(text: string): Option<string> {
    if text != "" then Some(Strip(text)) else None
  }

  /** Where `mileage_data[fuel_type][transmission] = ...` lands. */
  datatype Target = Store(slot: MileageSlot) | Ignore | Crash

  /**
   * The test `fuel_type in mileage_data and transmission in mileage_data[fuel_type]`
   * and the assignment after it. A fuel type of `overview` or
   * `fuel_tank_capacity` names a slot that holds `None` or a string: `in` on
   * `None`, or assigning into a string, raises TypeError; `in` on a string is
   * a substring test, which may skip the row instead.
   */
  function Destination(fuel: string, transmission: string, overview: Option<string>): (t: Target)
    ensures t.Store? <==>
      || (fuel == "petrol" && (transmission == "manual" || transmission == "automatic"))
      || (fuel == "cng" && transmission == "manual")
    ensures t.Crash? <==>
      || fuel == "fuel_tank_capacity"
      || (fuel == "overview" && (overview.None? || Contains(overview.value, transmission)))
    ensures fuel == "petrol" && transmission == "manual" ==> t == Store(PetrolManual)
    ensures fuel == "petrol" && transmission == "automatic" ==> t == Store(PetrolAutomatic)
    ensures fuel == "cng" && transmission == "manual" ==> t == Store(CngManual)
  {
    if fuel == "petrol" then
      if transmission == "manual" then Store(PetrolManual)
      else if transmission == "automatic" then Store(PetrolAutomatic)
      else Ignore
    else if fuel == "cng" then
      if transmission == "manual" then Store(CngManual) else Ignore
    else if fuel == "overview" then
      if overview.None? || Contains(overview.value, transmission) then Crash else Ignore
    else if fuel == "fuel_tank_capacity" then Crash
    else Ignore
  }

  /** What a table row does: nothing unless all three cells are non-empty. */
  function RowTarget(overview: Option<string>, row: MileageRow): (t: Target)
    ensures t != Ignore ==> row.fuelCell != "" && row.transmission != "" && row.mileage != ""
  {
    if row.fuelCell != "" && row.transmission != "" && row.mileage != "" then
      Destination(FuelType(row.fuelCell), Strip(Lower(row.transmission)), overview)
    else Ignore
  }

  /** The reading a row writes, if any: `mileage.strip()` into the slot it targets. */
  function MileageEntry(overview: Option<string>, row: MileageRow): (e: Option<(MileageSlot, string)>)
    ensures e.Some? <==> RowTarget(overview, row).Store?
    ensures e.Some? ==> e.value == (RowTarget(overview, row).slot, Strip(row.mileage))
  {
    match RowTarget(overview, row)
    case Store(slot) => Some((slot, Strip(row.mileage)))
    case _ => None
  }

  /** The target of every row, in table order. */
  ghost function Targets(overview: Option<string>, rows: seq<MileageRow>): (ts: seq<Target>)
    ensures |ts| == |rows|
  {
    if rows == [] then [] else Targets(overview, rows[..|rows| - 1]) + [RowTarget(overview, rows[|rows| - 1])]
  }

  /** The reading every row writes, in table order. */
  ghost function MileageEntries(overview: Option<string>, rows: seq<MileageRow>): (es: seq<Option<(MileageSlot, string)>>)
    ensures |es| == |rows|
  {
    if rows == [] then [] else MileageEntries(overview, rows[..|rows| - 1]) + [MileageEntry(overview, rows[|rows| - 1])]
  }

  /** Position `i` of both lists belongs to row `i`. */
  lemma {:induction false} MileageAt(overview: Option<string>, rows: seq<MileageRow>, i: nat)
    requires i < |rows|
    ensures Targets(overview, rows)[i] == RowTarget(overview, rows[i])
    ensures MileageEntries(overview, rows)[i] == MileageEntry(overview, rows[i])
  {
    if i < |rows| - 1 {
      var init := rows[..|rows| - 1];
      MileageAt(overview, init, i);
      assert init[i] == rows[i];
    }
  }

  lemma MileageNext(overview: Option<string>, rows: seq<MileageRow>, i: nat)
    requires i < |rows|
    ensures Targets(overview, rows[..i + 1]) == Targets(overview, rows[..i]) + [RowTarget(overview, rows[i])]
    ensures MileageEntries(overview, rows[..i + 1]) == MileageEntries(overview, rows[..i]) + [MileageEntry(overview, rows[i])]
  {
    assert rows[..i + 1][..i] == rows[..i];
  }

  /** `_extract_mileage_data`: TypeError when some row targets a slot that is
      not a dictionary; otherwise the readings the whitelisted rows fill, the
      last row for a slot winning. */
  method ExtractMileage(overviewText: string, rows: seq<MileageRow>) returns (r: Result<MileageData, Error>)
    ensures r.Err? <==> Crash in Targets(Overview(overviewText), rows)
    ensures r.Err? ==> r.error == TypeError
    ensures r.Ok? ==> r.value.overview == Overview(overviewText)
    ensures r.Ok? ==> LastWrite(MileageEntries(Overview(overviewText), rows), r.value.readings)
  {
    var overview: Option<string> := None;
    if overviewText != "" {
      overview := Some(Strip(overviewText));
    }
    var readings: map<MileageSlot, string> := map[];
    var i := 0;
    while i < |rows|
      invariant 0 <= i <= |rows|
      invariant Crash !in Targets(overview, rows[..i])
      invariant readings == Filled(MileageEntries(overview, rows[..i]))
    {
      MileageNext(overview, rows, i);
      var target := ReadMileageRow(overview, rows[i]);
      if target.Crash? {
        MileageAt(overview, rows, i);
        return Err(TypeError);
      }
      FilledSnoc(MileageEntries(overview, rows[..i]), MileageEntry(overview, rows[i]));
      if target.Store? {
        readings := readings[target.slot := Strip(rows[i].mileage)];
      }
      i := i + 1;
    }
    assert rows[..|rows|] == rows;
    FilledIsLastWrite(MileageEntries(overview, rows));
    r := Ok(MileageData(readings, overview));
  }

  /** The body of the row loop up to the assignment: the three cells' test,
      the fuel type's normalisation and the dictionary tests. */
  method ReadMileageRow(overview: Option<string>, row: MileageRow) returns (t: Target)
    ensures t == RowTarget(overview, row)
  {
    t := Ignore;
    if row.fuelCell != "" && row.transmission != "" && row.mileage != "" {
      var fuel := FuelType(row.fuelCell);
      var transmission := Strip(Lower(row.transmission));
      t := Destination(fuel, transmission, overview);
    }
  }

  /** A row whose fuel type is none of the dictionary's keys neither fails nor changes the readings. */
  lemma UnlistedFuelIgnored(overview: Option<string>, rows: seq<MileageRow>, row: MileageRow)
    requires FuelType(row.fuelCell) != "petrol" && FuelType(row.fuelCell) != "cng"
    requires FuelType(row.fuelCell) != "overview" && FuelType(row.fuelCell) != "fuel_tank_capacity"
    ensures Targets(overview, rows + [row]) == Targets(overview, rows) + [Ignore]
    ensures Filled(MileageEntries(overview, rows + [row])) == Filled(MileageEntries(overview, rows))
  {
    var rs := rows + [row];
    assert RowTarget(overview, row) == Ignore by {
      var fuel := FuelType(row.fuelCell);
      assert Destination(fuel, Strip(Lower(row.transmission)), overview) == Ignore;
    }
    assert MileageEntry(overview, row) == None;
    assert rs[..|rs| - 1] == rows && rs[|rs| - 1] == row;
    assert MileageEntries(overview, rs) == MileageEntries(overview, rows) + [None];
    FilledSnoc(MileageEntries(overview, rows), None);
  }
}
