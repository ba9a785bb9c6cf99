# Car-details assembly, modelled in Dafny

The car-details spider of the `sawari` scraper turns one car of the listing
into one flat record. It does this by scatter and gather:

- **Record creation.** `start_requests` creates a record for each car. The
  record is a dictionary holding `base_info`, seven data slots set to `None`,
  and an empty `_pending_tabs` set.
- **Discovery.** `parse_first_page` walks the car's tab links. It skips
  `model` and `compare`, maps every other tab id to a data key and a parser
  through a fixed table, adds the key to the pending set and issues one
  request per tab. An unknown id keeps its own name as the key and goes to
  `parse_unknown`. The ids `range` and `mileage` share the key `mileage`.
- **Completion.** Each response (`process_tab`) or failed request
  (`handle_error`) writes one slot, removes its key from the pending set and
  asks `finalize_car_data` whether the car is complete.
- **Emission.** `finalize_car_data` merges `base_info` with the collected
  slots once the pending set is empty. The callback that emptied the set
  yields that record.

Beside the assembly, the model covers the string rules of the extractors,
taking already-selected strings as inputs:

- price cleaning and the other-charges breakdown;
- the `+N` total-feature count of a variant;
- the colour name and the high-quality image taken from `srcset`;
- the mileage table's fuel-type normalisation and slot whitelist;
- the spec-row filter.

Modules:

- `Values`: Python values, dictionary keys and the exceptions that matter.
- `Text`: `str.strip`, `str.lower`, `split`, and `int`/`str` on integers.
- `Fill`: a dictionary filled in a loop holds each key's last write.
- `FilterMap`: a list built by appending the items that pass a test.
- `Extract`: the extractors.
- `Assembly`: the record state as a value, one function per callback, and
  the class `CarData` that performs the callbacks in place.
- `AssemblyProofs`: properties over whole runs of callbacks.

Scrapy runs the callbacks of a spider one at a time, so a callback is one
atomic step. A run of callbacks is a sequence of events folded over the
record state (`Assembly.Run`).

Behaviours of the code that the model keeps as written:

- **Merge precedence.** `{**base_info, **final_data}` lets a collected slot
  override a base field of the same name.
- **Late or duplicate completions.** Such a callback writes its slot and then
  raises KeyError from `set.remove`; it resolves nothing and yields nothing.
  `AssemblyProofs.ResolvedKeyRaises` shows this for any callback after its
  key was resolved, and `AssemblyProofs.SecondMileageCallbackFails` for
  `range` plus `mileage`.
- **First-page failures.** A failure of the first-page request reaches
  `handle_error` without a `data_key` in its meta. Reading the key raises
  KeyError, so that car never enters assembly and never yields a record.
- **An unknown tab named `_pending_tabs`.** Its placeholder overwrites the
  set, and every later `remove`, and the `add` in discovery, raises
  AttributeError. The `tracking` flag of the state records this.
- **A non-dictionary `base_info`.** An unknown tab named `base_info` replaces
  the base with its placeholder, which is still a dictionary. A base that is
  not a dictionary would make the merge raise TypeError; the model keeps that
  error path.
- **An empty merged record.** `if final_data:` skips an empty dictionary.
  `Assembly.MergedRecordIsNonEmpty` shows the merged record is never empty,
  so a complete car always yields.
- **The high-quality colour image.** Line 289 takes the text before the first
  space of the last `srcset` candidate. The colours use that expression as
  written; the corrected rule is kept beside it (see Findings).

## Model

| member | source | states |
|---|---|---|
| Text.Strip | sawari/spiders/car_details_spider.py:190 | the result has no white space at either end and is no longer than the input |
| Text.StripSlice | sawari/spiders/car_details_spider.py:190 | `strip()` returns a contiguous slice of the input with only white space cut on either side |
| Text.StripIdempotent | sawari/spiders/car_details_spider.py:190 | stripping twice equals stripping once |
| Text.Lower | sawari/spiders/car_details_spider.py:203 | `lower()` keeps the length and leaves no upper-case letter |
| Text.LowerChar | sawari/spiders/car_details_spider.py:203 | an upper-case ASCII letter becomes the letter at the same place in `a`..`z`; every other character is kept |
| Text.LowerConcat | sawari/spiders/car_details_spider.py:203 | lower-casing distributes over concatenation, so it works character by character and keeps order |
| Text.LowerIdempotent | sawari/spiders/car_details_spider.py:326-327 | lower-casing twice equals lower-casing once |
| Text.RemoveAll | sawari/spiders/car_details_spider.py:190 | `replace("₹", "")` removes every rupee sign and keeps every other character with its count |
| Text.RemoveAllSingle | sawari/spiders/car_details_spider.py:190 | a single character is removed exactly when it is the rupee sign, and kept otherwise |
| Text.RemoveAllConcat | sawari/spiders/car_details_spider.py:190 | removal distributes over concatenation, so the kept characters stay in their order |
| Text.BeforeFirst | sawari/spiders/car_details_spider.py:331 | `split("(")[0]` is the longest prefix without the separator, followed by it if anything follows |
| Text.AfterFirst | sawari/spiders/car_details_spider.py:246 | the text after the first separator: the input is the part before it, the separator, then the result |
| Text.AfterLast | sawari/spiders/car_details_spider.py:289 | `split(",")[-1]` is the suffix after the last comma and contains no comma |
| Text.TakeWord | sawari/spiders/car_details_spider.py:246 | the maximal prefix free of white space |
| Text.FirstWord | sawari/spiders/car_details_spider.py:246 | `split()[0]` exists exactly when the text is not all white space, and is a non-empty word |
| Text.FirstWordOf | sawari/spiders/car_details_spider.py:246 | after leading white space, `split()[0]` is the first word |
| Text.ParseInt | sawari/spiders/car_details_spider.py:245 | `int()` accepts only a non-empty text starting with a digit or a sign and ending with a digit |
| Text.ParseShowInt | sawari/spiders/car_details_spider.py:245 | `int()` reads back any integer `str()` writes (with no limit on the number of digits) |
| Fill.Put | sawari/spiders/car_details_spider.py:203 | one `d[k] = v` sets `k` and keeps every other key's value |
| Fill.FillStep | sawari/spiders/car_details_spider.py:199-203 | one more loop iteration keeps the last-write characterisation |
| Fill.FilledIsLastWrite | sawari/spiders/car_details_spider.py:199-203 | filling in order leaves exactly the keys written, each with its last written value |
| Fill.LastWriteUnique | sawari/spiders/car_details_spider.py:499-503 | the last-write characterisation determines the dictionary |
| FilterMap.CollectNext | sawari/spiders/car_details_spider.py:236-237 | one more loop iteration appends the item exactly when it passes the test |
| FilterMap.CollectFrom | sawari/spiders/car_details_spider.py:293-300 | every element of the list comes from some input item |
| FilterMap.CollectHas | sawari/spiders/car_details_spider.py:293-300 | every input item that passes the test is in the list |
| FilterMap.CollectPrefix | sawari/spiders/car_details_spider.py:69-90 | the list built from a prefix of the items is a prefix of the full list |
| Extract.CleanPrice | sawari/spiders/car_details_spider.py:190 | the cleaned price has no rupee sign and no surrounding white space |
| Extract.CleanPriceKeepsCleanText | sawari/spiders/car_details_spider.py:190 | a value already stripped and free of rupee signs is left unchanged |
| Extract.CleanPriceIdempotent | sawari/spiders/car_details_spider.py:190 | cleaning twice equals cleaning once |
| Extract.PriceSlotsOnce | sawari/spiders/car_details_spider.py:177-183 | the mapping lists every price slot, each exactly once |
| Extract.SetPrice | sawari/spiders/car_details_spider.py:191-196 | a plain key sets its field and `other_charges.total` sets the nested total; nothing else changes |
| Extract.SetBreakdown | sawari/spiders/car_details_spider.py:203 | storing the breakdown changes no price slot and not the city |
| Extract.PriceValue | sawari/spiders/car_details_spider.py:187-190 | a slot is set exactly when the selector found non-empty text, to that text cleaned |
| Extract.LabelledEntry | sawari/spiders/car_details_spider.py:200-203 | a row is kept exactly when its stripped label and value are non-empty, under the lower-cased label |
| Extract.LabelledPut | sawari/spiders/car_details_spider.py:202-203 | one iteration of the breakdown loop stores or skips the row as the test says |
| Extract.FillLabelled | sawari/spiders/car_details_spider.py:199-203 | the breakdown holds, for every kept label, its last row's value |
| Extract.LabelledKeysNormalised | sawari/spiders/car_details_spider.py:199-203 | every breakdown key is non-empty, lower-cased and stripped, and every value non-empty and stripped |
| Extract.ReadSlotsAt | sawari/spiders/car_details_spider.py:185-196 | after reading the slots, each listed slot holds its cleaned value or `None` and the others stay `None` |
| Extract.ReadPriceSlots | sawari/spiders/car_details_spider.py:185-196 | the mapping loop leaves every slot holding its cleaned found value; the city is New Delhi and the breakdown is empty |
| Extract.ExtractPrice | sawari/spiders/car_details_spider.py:166-205 | the price record has every slot from its selector, the breakdown as the last write per label, and the city New Delhi |
| Extract.SpecEntry | sawari/spiders/car_details_spider.py:500-503 | a row is kept exactly when both cells were found and are non-empty, stored stripped |
| Extract.SpecPut | sawari/spiders/car_details_spider.py:502-503 | one iteration of the spec-row loop stores or skips the row as the test says |
| Extract.ExtractSpecSection | sawari/spiders/car_details_spider.py:495-505 | the section holds, for every kept key, the value of its last row |
| Extract.SpecSectionStripped | sawari/spiders/car_details_spider.py:499-503 | every key and value is stripped, and each entry comes from some row of the table |
| Extract.ExtractSpecifications | sawari/spiders/car_details_spider.py:207-213 | each of the four sections is extracted from its own rows |
| Extract.TotalFeatures | sawari/spiders/car_details_spider.py:243-251 | the count is the listed features plus the `+N` number, or the listed features alone when there is no button text or it does not parse |
| Extract.ShownIntIsWord | sawari/spiders/car_details_spider.py:245-246 | a printed integer is one stripped word without `+`, and `int()` reads it back |
| Extract.PlusCountReadsCount | sawari/spiders/car_details_spider.py:243-247 | button text `…+N more` yields the number N, for N of any length (the interpreter's digit limit is not modelled) |
| Extract.WordAfterPlus | sawari/spiders/car_details_spider.py:245-246 | the word that follows the first `+` is what `int()` is given |
| Extract.PlusCount | sawari/spiders/car_details_spider.py:245-249 | a count is read only from button text that contains `+` |
| Extract.FeaturesShape | sawari/spiders/car_details_spider.py:233-237 | every kept feature is stripped, and none is dropped when all texts are non-empty |
| Extract.FeaturesNext | sawari/spiders/car_details_spider.py:236-237 | one iteration appends the stripped text exactly when it is non-empty |
| Extract.CollectFeatures | sawari/spiders/car_details_spider.py:232-237 | the loop builds the feature list `Features` defines, whose properties `FeaturesShape` states |
| Extract.VariantFromContents | sawari/spiders/car_details_spider.py:217-265 | a variant's specs are the last write per lower-cased label, its total counts its features plus `+N`, and its tag is `None` or non-empty and stripped |
| Extract.ExtractVariant | sawari/spiders/car_details_spider.py:218-265 | the block loop builds the variant `VariantFrom` defines, whose properties `VariantFromContents` states |
| Extract.VariantsNext | sawari/spiders/car_details_spider.py:256-265 | each block appends exactly one variant |
| Extract.ExtractVariants | sawari/spiders/car_details_spider.py:215-267 | one variant per block, in page order |
| Extract.VariantsAt | sawari/spiders/car_details_spider.py:256-265 | the variant at each position is the one built from the block at that position |
| Extract.HqUrlAsWritten | sawari/spiders/car_details_spider.py:289 | the expression as written yields a stripped string with no comma and no space |
| Extract.HqUrlAsWrittenOfCandidate | sawari/spiders/car_details_spider.py:289 | when the last candidate follows its comma directly, as `,<url> <descriptor>`, the expression as written yields that url |
| Extract.HqUrlAsWrittenEmpty | sawari/spiders/car_details_spider.py:289 | when the last candidate starts with a space, the expression as written yields "" |
| Extract.HqUrlAsWrittenLosesSpacedCandidate | sawari/spiders/car_details_spider.py:286-298 | for a `", "`-separated srcset the code falls back to `src`, while the corrected rule picks the last candidate's URL |
| Extract.HqImageAsWritten | sawari/spiders/car_details_spider.py:286-298 | the HQ image as written: the expression's result whenever the srcset is non-empty and the result is non-empty, `src` otherwise; never empty when `src` is not |
| Extract.HqUrl | sawari/spiders/car_details_spider.py:289 | the corrected URL has no comma and no white space |
| Extract.HqUrlOfCandidate | sawari/spiders/car_details_spider.py:289 | the corrected rule yields the URL of the last candidate whatever white space precedes it |
| Extract.HqImage | sawari/spiders/car_details_spider.py:298 | the corrected HQ image: the last candidate's URL whenever the srcset has one, `src` otherwise; never empty when `src` is not |
| Extract.ColourOf | sawari/spiders/car_details_spider.py:274-300 | a colour has a non-empty name and its image is the section's non-empty `src` |
| Extract.ColourOfShape | sawari/spiders/car_details_spider.py:276-300 | a section becomes a colour exactly when it has a name from text or id and a `src`; the name prefers the text; the HQ image is the as-written rule's |
| Extract.ColourOfIntended | sawari/spiders/car_details_spider.py:289-298 | the corrected colour exists exactly when the as-written one does and differs from it only in the corrected HQ image |
| Extract.ColourLosesSpacedCandidate | sawari/spiders/car_details_spider.py:286-298 | for a `", "`-separated srcset the colour as written shows `src` as HQ image, the corrected colour the last candidate's URL |
| Extract.ColoursWellFormed | sawari/spiders/car_details_spider.py:293-300 | every colour has a non-empty stripped name, an image and an HQ image |
| Extract.ColoursFromBlocks | sawari/spiders/car_details_spider.py:274-300 | every colour comes from one of the sections |
| Extract.BlocksInColours | sawari/spiders/car_details_spider.py:274-300 | every section that passes the test gives a colour in the list |
| Extract.ExtractColours | sawari/spiders/car_details_spider.py:269-302 | the loop builds the colours of the passing sections, in page order, with the HQ image as written |
| Extract.FuelType | sawari/spiders/car_details_spider.py:326-331 | normalising never lengthens the cell text |
| Extract.FuelTypeNormal | sawari/spiders/car_details_spider.py:326-331 | the fuel type is lower-cased, stripped and free of `(` |
| Extract.FuelTypeIdempotent | sawari/spiders/car_details_spider.py:326-331 | normalising twice equals normalising once |
| Extract.Destination | sawari/spiders/car_details_spider.py:334-338 | a reading is stored exactly for petrol manual, petrol automatic and cng manual, each in its own slot; a TypeError is raised exactly for `fuel_tank_capacity` and for `overview` when the transmission is in the overview text or there is none |
| Extract.RowTarget | sawari/spiders/car_details_spider.py:325-338 | only a row whose three cells are all non-empty has a target |
| Extract.MileageEntry | sawari/spiders/car_details_spider.py:325-338 | a row writes a reading exactly when its target is a stored slot, and writes the stripped mileage into that slot |
| Extract.MileageAt | sawari/spiders/car_details_spider.py:319-338 | the target and the reading at position i belong to row i |
| Extract.ReadMileageRow | sawari/spiders/car_details_spider.py:321-331 | the cell test and normalisation give the row's target |
| Extract.ExtractMileage | sawari/spiders/car_details_spider.py:304-340 | fails with TypeError exactly when some row's target raises; otherwise each slot holds its last reading and the overview is the stripped text |
| Extract.UnlistedFuelIgnored | sawari/spiders/car_details_spider.py:334-338 | a row whose fuel type is not a key of the dictionary changes nothing |
| Assembly.Initial | sawari/spiders/car_details_spider.py:23-33 | a fresh record holds the base, every slot `None` and nothing pending |
| Assembly.Merge | sawari/spiders/car_details_spider.py:96-101 | the merge succeeds exactly when `base_info` is a dictionary, and raises TypeError otherwise |
| Assembly.MergeContents | sawari/spiders/car_details_spider.py:96-101 | the merged record holds every entry but `base_info`, with collected values winning, plus the base fields not shadowed |
| Assembly.YieldOf | sawari/spiders/car_details_spider.py:118-120 | `if final_data:` yields exactly a non-empty merged record, unchanged, and raises exactly when the merge raised, with that same error |
| Assembly.Finalize | sawari/spiders/car_details_spider.py:92-104 | `None` exactly while keys are pending; otherwise the merged record, or the very error the merge raised |
| Assembly.MergedRecordIsNonEmpty | sawari/spiders/car_details_spider.py:118-120 | the merged record is never empty, so a complete car always yields |
| Assembly.Complete | sawari/spiders/car_details_spider.py:106-120 | writes only the key's slot and removes only that key; AttributeError once the set is gone, KeyError when not pending; quiet while other keys remain; on emptying the set, emits the merged record when `base_info` is a dictionary and raises TypeError otherwise |
| Assembly.HandleFailure | sawari/spiders/car_details_spider.py:149-164 | without a data key the record is unchanged and KeyError is raised; with one, the failure is the completion of that key with the error placeholder |
| Assembly.Apply | sawari/spiders/car_details_spider.py:106-164 | a response is a completion of its key and a failed request is `handle_error`, each keeping the record well formed |
| Assembly.Run | sawari/spiders/car_details_spider.py:106-164 | a run of callbacks keeps the record well formed and gives one outcome per callback |
| Assembly.TabMapping | sawari/spiders/car_details_spider.py:55-66 | exactly `model` and `compare` map to no parser; every parser's key is a data slot; `range` and `mileage` both map to the `mileage` slot and parser |
| Assembly.Route | sawari/spiders/car_details_spider.py:77 | a tab has no parser exactly when it is skipped; an id missing from the table keeps its own name and gets `parse_unknown`; every table parser writes a data slot |
| Assembly.TabRequestShape | sawari/spiders/car_details_spider.py:69-90 | a tab gets a request exactly when it is not `model`/`compare`, to its own URL, with an unknown id as its own key and `parse_unknown` as parser |
| Assembly.Plan | sawari/spiders/car_details_spider.py:69-90 | at most one request per tab link |
| Assembly.PlanNext | sawari/spiders/car_details_spider.py:69-90 | one more tab link appends its own request, if it has one, at the end |
| Assembly.KeysOfSnoc | sawari/spiders/car_details_spider.py:82 | one more request adds exactly its key to the pending keys |
| Assembly.CarData.constructor | sawari/spiders/car_details_spider.py:23-33 | the new record object is in the initial state |
| Assembly.CarData.ParseFirstPage | sawari/spiders/car_details_spider.py:55-90 | issues the planned requests in tab order and adds exactly their keys to pending, slots unchanged; AttributeError once the set is gone |
| Assembly.CarData.ProcessTab | sawari/spiders/car_details_spider.py:106-120 | the in-place update is the completion step, outcome included |
| Assembly.CarData.ParseUnknown | sawari/spiders/car_details_spider.py:122-125 | completes the key with `{"error": "Unknown tab type"}` |
| Assembly.CarData.HandleError | sawari/spiders/car_details_spider.py:149-164 | the in-place update is the failure step, outcome included |
| AssemblyProofs.WritesPermutation | sawari/spiders/car_details_spider.py:112 | with distinct keys, the written slots do not depend on callback order |
| AssemblyProofs.FirstCallback | sawari/spiders/car_details_spider.py:106-120 | the first pending callback writes its slot, resolves its key and yields nothing unless it was the last |
| AssemblyProofs.GatherFinalState | sawari/spiders/car_details_spider.py:112-115 | after one callback per pending key every slot is written and nothing is pending |
| AssemblyProofs.GatherQuiet | sawari/spiders/car_details_spider.py:117-120 | every callback before the last yields nothing |
| AssemblyProofs.GatherLast | sawari/spiders/car_details_spider.py:117-120 | the last callback yields the merge of the base and all written slots |
| AssemblyProofs.LastCallbackEmits | sawari/spiders/car_details_spider.py:115-120 | the callback for the only pending key yields the merged record with its slot written |
| AssemblyProofs.GatherEmitsOnce | sawari/spiders/car_details_spider.py:106-120 | one callback per pending key: the final state, quiet callbacks, then exactly one emitted record |
| AssemblyProofs.EmittedRecordContents | sawari/spiders/car_details_spider.py:96-101 | the emitted record holds every tab's value or error placeholder and every slot no tab was discovered for |
| AssemblyProofs.OrderIrrelevant | sawari/spiders/car_details_spider.py:106-120 | any two arrival orders of the same callbacks give the same outcomes and the same final state |
| AssemblyProofs.PendingOnlyShrinks | sawari/spiders/car_details_spider.py:115 | callbacks never add to the pending set |
| AssemblyProofs.NothingPendingNeverEmits | sawari/spiders/car_details_spider.py:94-104 | with nothing pending, or the set overwritten, no callback ever yields a record |
| AssemblyProofs.AtMostOneEmission | sawari/spiders/car_details_spider.py:92-120 | any run of callbacks yields at most one record |
| AssemblyProofs.FirstPageFailureIgnored | sawari/spiders/car_details_spider.py:149-152 | a failure without a data key, followed by any callbacks, raises KeyError and otherwise runs as if it had not happened |
| AssemblyProofs.FirstPageFailureNeverEmits | sawari/spiders/car_details_spider.py:149-152 | a car whose first page failed raises KeyError and, whatever callbacks follow, never yields a record |
| AssemblyProofs.LateFailureRaises | sawari/spiders/car_details_spider.py:157-159 | a failure for a key no longer pending stores its placeholder, resolves nothing and raises KeyError |
| AssemblyProofs.ResolvedKeyRaises | sawari/spiders/car_details_spider.py:112-115 | after any callbacks, a callback for an already resolved key raises KeyError, or AttributeError once the set is gone |
| AssemblyProofs.FailedTabCompletes | sawari/spiders/car_details_spider.py:157-164 | a failed tab stores the placeholder, resolves its key and lets the car emit |
| AssemblyProofs.PlanLength | sawari/spiders/car_details_spider.py:69-90 | one request per tab that is not skipped |
| AssemblyProofs.PlanMembers | sawari/spiders/car_details_spider.py:69-90 | the requests are exactly the requests of the individual tabs |
| AssemblyProofs.PlanEmptyIffAllSkipped | sawari/spiders/car_details_spider.py:72-82 | no request is issued exactly when every tab is `model` or `compare` |
| AssemblyProofs.NoTabsNoRecord | sawari/spiders/car_details_spider.py:69-90 | when discovery finds nothing to fetch, no record is ever yielded |
| AssemblyProofs.RangeTabRequest | sawari/spiders/car_details_spider.py:63 | a `range` tab is fetched into the `mileage` slot |
| AssemblyProofs.MileageTabRequest | sawari/spiders/car_details_spider.py:62 | a `mileage` tab is fetched into the `mileage` slot |
| AssemblyProofs.RangeAndMileageShareOneKey | sawari/spiders/car_details_spider.py:62-82 | `range` and `mileage` give two requests but one pending key |
| AssemblyProofs.LastPendingCompletes | sawari/spiders/car_details_spider.py:112-120 | completing the last pending key yields a record holding the parsed value |
| AssemblyProofs.SecondMileageCallbackFails | sawari/spiders/car_details_spider.py:112-115 | the first of two callbacks for the shared key emits and the second raises KeyError |
| AssemblyProofs.PriceAnswersSpecsTimesOut | sawari/spiders/car_details_spider.py:149-164 | a car whose specs request fails still emits, with the price and the error placeholder |
| AssemblyProofs.PriceAndSpecsDiscovered | sawari/spiders/car_details_spider.py:55-90 | price and specs tabs leave both keys pending on the fresh record |

## Left out

- CSS selection, `response.urljoin` and the first page's URL rewrite (`/overview` to `/price`) are calls into Scrapy and parsel. The extractors take the strings they would select as inputs, and tab links arrive with their URLs already joined.
- Reading `cars_data.json`, and its FileNotFoundError and JSONDecodeError handling, is file I/O. Each car's base dictionary is a parameter.
- HTTP transport, retries, download delays and concurrency limits are framework settings. A failed request is an event carrying its error text.
- The reviews extractor is left out because it parses floats. Its result is an opaque parsed value.
- The gallery extractor is selector-driven. Its result is an opaque parsed value.
- Logging and `closed` have no effect on the data.
- The discovery loop's requests are issued lazily, by a generator, so Scrapy can start a tab's callback before discovery ends. The model runs discovery to the end first. A callback that ran before the last `add` could empty the pending set early and make the car yield twice; `AssemblyProofs.AtMostOneEmission` holds only for discovery-first order.
- A parser that raises (the `ParserRaised` outcome of a tab) stops `process_tab` before `remove`, so its key stays pending unless another tab with the same key completes it (`range` and `mileage` share `mileage`); otherwise the car never yields. The model keeps the key pending and proves nothing further about such a car.
- Text.Lower: lower-cases ASCII letters only, because Unicode case mapping tables are not modelled.
- Text.ParseInt: accepts ASCII digits and underscores only, not other Unicode decimal digits. The text is already stripped where it is used. It reads a digit run of any length. CPython 3.11 and later, and the 2022 security releases of 3.7 to 3.10, make `int()` raise ValueError on more than 4300 digits, and no Python version is pinned. On such a `+N` count the bare `except:` at lines 248-249 falls back to `len(features)`, while the model adds N; `Text.ParseShowInt`, `Extract.PlusCountReadsCount` and `Extract.TotalFeatures` carry the same gap.
- Extract.PlusCountReadsCount: holds for counts of any length; past 4300 digits CPython's `int()` raises and the code keeps the listed count, see the Text.ParseInt line.
- Extract.TotalFeatures: adds a `+N` count of any length; past 4300 digits the code keeps the listed count, see the Text.ParseInt line.
- The mileage dictionary's `fuel_tank_capacity` entry is not a field of the result, because the code never writes it and it stays `None`.
- Extract.HqImageAsWritten: the `except` branch at line 290 is not modelled, because `split` and `strip` on strings cannot raise there.

## Findings

| source | as written | input that shows it | evidently intended | confidence | as-written member | corrected member |
|---|---|---|---|---|---|---|
| sawari/spiders/car_details_spider.py:289 | `srcset.split(",")[-1].split(" ")[0].strip()` takes the text before the first space of the last candidate | srcset `"a.jpg 1x, b.jpg 2x"`: the last candidate is `" b.jpg 2x"`, whose text before the first space is empty, so `hq_image` falls back to `src` | the URL of the last candidate, `"b.jpg"` | not executed | Extract.HqUrlAsWrittenLosesSpacedCandidate | Extract.HqUrlOfCandidate |
