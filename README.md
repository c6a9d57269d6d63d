# kaspi-ser feed parser, modelled in Dafny

This project models `parser.py` of kaspi-ser. That file turns a product feed in XML into
price-comparison records for the Kaspi.kz marketplace. It has two parts that work together.

- **The feed processor** `process_xml_and_scan`. It finds the product
  elements of the document: first a Kaspi-specific `offers/offer` path, then ten
  generic ElementPath patterns in a fixed order, then every element as a last
  resort. A positive `max_items` keeps at most that many of them, a negative one
  drops that many from the end (Python's `items[:max_items]`), and none or 0 keeps
  them all. For each item it reads a SKU, a model name, a price and a stock level;
  every field has its own list of candidate names, its Kaspi special cases and its
  default. It then asks the estimator
  for a market position and adds the difference between the headline price and ours.
- **The market estimator** `extract_model_price_from_kaspi`. It simulates a comparison of our price
  with rival tyre sellers: two to four random draws, with a seller drawn again skipped, so
  one to four distinct rivals. Each rival's price is a random variation of
  ours, truncated to an integer and rounded to a hundred tenge, and the sellers are
  sorted from cheapest to dearest. Each estimate is recorded in the history cache
  `kaspi_price_data.json` under the model's normalized name. The cache is written
  every fiftieth entry, or when the file does not exist yet, and is trimmed to
  the 500 most recently checked entries when it is written.

The modules follow the program's structure:

| module | file | models |
|---|---|---|
| `Wrappers` | wrappers.dfy | `Option` |
| `Text` | text.dfy | `str.lower`, `in`, `replace`, `strip`, `str(n)`, string `<=` |
| `Tree` | tree.dfy | ElementTree elements, `.//` descendants, `name` / `{*}name` tests |
| `Normalize` | normalize.dfy | `normalize_name` |
| `Discovery` | discovery.dfy | the item discovery ladder |
| `Locator` | locator.dfy | the nested `find_element_text` |
| `Fields` | fields.dfy | SKU, model, price and stock resolution, Kaspi passes, stripping |
| `History` | history.dfy | the JSON history cache: insertion-ordered dict, flush rule, eviction |
| `Market` | market.dfy | the estimator: sellers, variation, rounding, ranking, details |
| `Extractor` | extractor.dfy | `process_xml_and_scan`: truncation, the per-item loop, differences |

The loops of the source are Dafny `method`s with `while`/`for` loops. Each one is
proved equal to a specification function, and the properties the source promises
are lemmas about those functions. The estimate cache, whose fields change
from call to call, is the class `History.EstimateCache`.

## Model

| member | source | states |
|---|---|---|
| Text.LowerIsLowered | parser.py:15 | a lower-cased string has no capital letter, and lower-casing again changes nothing |
| Text.LowerKeepsNonCapitals | parser.py:15 | lower-casing changes exactly the capitals: every other character stays in place, and a string without capitals is unchanged |
| Text.RemoveAll | parser.py:15 | `replace(p, '')` never lengthens a string and introduces no character that was not there |
| Text.DeleteChar | parser.py:15 | deleting a character leaves exactly the other characters of the string |
| Text.RemoveSingleIsDelete | parser.py:15 | `replace(c, '')` for one character deletes every occurrence of it |
| Text.ReplaceCharFacts | parser.py:455 | after `replace(a, b)` no `a` is left, a string without `a` is unchanged, replacing twice is replacing once, and each `b` of the result was an `a` or a `b` |
| Text.StripBounds | parser.py:446-449 | the kept text starts after a run of leading whitespace and ends before a run of trailing whitespace, with a non-space at each end unless nothing is kept |
| Text.StripWindow | parser.py:446-449 | such a window is empty iff the text is all whitespace, has no whitespace at either end, is the whole text when there is no outer whitespace, and holds only characters of the text |
| Text.Strip | parser.py:446-449 | `strip()` is the infix `s[a..b]` with only whitespace before `a` and after `b`; it is empty iff the text is all whitespace, leaves no whitespace at either end, and keeps a text without outer whitespace as it is |
| Text.NatToString | parser.py:386 | `str(n)` is a non-empty run of decimal digits with no leading zero; `str(0)` is "0" |
| Text.NatToStringRoundTrip | parser.py:386 | reading the digits of `str(n)` back gives `n` |
| Text.StrLeTotal | parser.py:188-192 | the string order the recency sort uses is total |
| Text.StrLeTransitive | parser.py:188-192 | the string order the recency sort uses is transitive |
| Tree.Named | parser.py:301-307 | `.//name` and `.//{*}name` keep exactly the descendants that pass the name test, never more than there are |
| Tree.NamedAppend | parser.py:301-307 | the name test keeps document order: selecting from two runs is selecting from the first, then from the second |
| Tree.NamedSingle | parser.py:301-307 | one element is kept iff it passes the name test |
| Tree.WithAttribute | parser.py:308-309 | `.//*[@a]` keeps exactly the descendants that carry attribute `a`, never more than there are |
| Tree.WithAttributeAppend | parser.py:308-309 | the attribute test keeps document order: selecting from two runs is selecting from the first, then from the second |
| Tree.WithAttributeSingle | parser.py:308-309 | one element is kept iff it carries the attribute |
| Tree.NamedChildren | parser.py:286-288 | `offers/offer` yields only elements that pass the `offer` test, yields every such child of every container, and nothing without containers |
| Tree.NamedChildrenAreChildren | parser.py:286-288 | everything `offers/offer` yields is a child of one of the containers |
| Tree.NamedChildrenSingle | parser.py:286-288 | for one container, `container/name` is the name test on its children |
| Tree.NamedChildrenAppend | parser.py:286-288 | the children of two runs of containers are those of the first run, then those of the second |
| Tree.DescendantsEmpty | parser.py:330-335 | `.//*` finds nothing exactly when the root has no children |
| Normalize.SeparatedIsFirstSteps | parser.py:15 | the first three `replace` steps of the key delete every space, hyphen and slash from the lower-cased name |
| Normalize.TubelessStepIsNoOp | parser.py:15 | the `б/к` step never changes the key, because every `/` is gone before it |
| Normalize.NormalizeNameShape | parser.py:13-15 | the key is lower-case and contains no space, hyphen or slash |
| Normalize.NormalizeIgnoresSeparator | parser.py:13-15 | names that differ by a space, hyphen or slash share a key |
| Normalize.NormalizeIgnoresCase | parser.py:13-15 | names that differ only in letter case share a key |
| Normalize.OtherMarkCanSurvive | parser.py:15 | one `replace('др', '')` pass can create a new `др`: the key of `ддрр` is `др` |
| Discovery.DiscoverItems | parser.py:263-336 | the strategy ladder returns the Kaspi offers if any, else the first generic pattern's hits, else all elements |
| Discovery.KaspiSearch | parser.py:266-296 | on a Kaspi-marked document, yields the `offer` children of the first `offers` path that resolves |
| Discovery.FindOffersPath | parser.py:270-281 | the loop picks the first of `.//offers`, `.//{*}offers` that finds an element, or none |
| Discovery.FindOffers | parser.py:283-296 | the loop yields the children of the first `offer` step that finds any, else nothing |
| Discovery.GenericSweep | parser.py:299-322 | the loop yields the hits of the first generic pattern that finds something |
| Discovery.FirstHitEmpty | parser.py:314-322 | the sweep finds nothing iff every one of the patterns finds nothing |
| Discovery.FirstHitAt | parser.py:314-322 | the sweep returns the hits of the earliest pattern, by position, that finds something |
| Discovery.FirstPatternWins | parser.py:299-322 | without Kaspi offers, discovery returns the hits of the first generic pattern in the fixed order that finds something |
| Discovery.FallbackNeverUsed | parser.py:310 | the `.//*` last resort is dead code: `./*` already finds every child of the root |
| Discovery.DiscoverEmptyIffChildless | parser.py:263-336 | discovery finds no items iff the root has no children |
| Discovery.KaspiOffersAreOffers | parser.py:286-292 | everything the Kaspi path returns is an `offer` element in some namespace |
| Locator.FirstTagged | parser.py:359 | the position of the first child tagged exactly `name`: no earlier child has that tag, and the one there does unless there is none |
| Locator.FirstNamespacedAt | parser.py:364-367 | the position of the first child whose tag ends in `}name`, in the same sense |
| Locator.FindText | parser.py:359 | `findtext(name)` is present iff some child is tagged exactly `name`, and is then the text of the first such child, "" when it has none |
| Locator.FindTextIn | parser.py:359 | the same over a child list |
| Locator.FirstNamespaced | parser.py:364-367 | the first child whose tag ends in `}name`, or none when no child's does |
| Locator.LookupIgnoresAttributes | parser.py:355-370 | the element lookups read the children only, never the item's attributes |
| Locator.FindElementText | parser.py:355-378 | the nested loops with early returns compute the locator `Locate` |
| Locator.ScanNamespaced | parser.py:364-369 | the child loop returns the first namespaced match |
| Locator.FirstNamespacedSkip | parser.py:365-367 | children without the namespaced name can be skipped without changing the match |
| Locator.ElementLookupHit | parser.py:357-369 | a name ends the element search iff a child has a non-empty exact text or a namespaced child exists |
| Locator.FirstElementHitWins | parser.py:357-369 | the first candidate name that hits as an element decides the result |
| Locator.NoElementHit | parser.py:357-369 | when no candidate hits as an element, the element search reports nothing |
| Locator.AttributesIgnoredAfterElementHit | parser.py:357-376 | once some candidate hits as an element, the item's attributes cannot change the result |
| Locator.FirstHitIndex | parser.py:357-369 | some hit implies an earliest hitting candidate |
| Locator.LocateNothing | parser.py:355-378 | with no matching child and no candidate attribute, the result is None |
| Locator.NoAttribute | parser.py:372-376 | with no candidate attribute, the attribute search reports nothing |
| Locator.LocateSound | parser.py:355-378 | every value returned is the text of a child matching a candidate, or a non-empty candidate attribute |
| Locator.NamespacedWithoutTextMasksAttribute | parser.py:364-376 | a namespaced child without text returns None before a same-named attribute is looked at |
| Fields.ResolveSku | parser.py:381-386 | the SKU before stripping is never empty |
| Fields.ResolveModel | parser.py:389-397 | the model before stripping is never empty |
| Fields.ResolvePrice | parser.py:400-419 | the price text before stripping is never empty |
| Fields.ResolveStock | parser.py:422-443 | the stock text before stripping is never empty |
| Fields.FirstPriceIndex | parser.py:411-414 | the inner loop stops at the first price-tagged element, or none is price-tagged |
| Fields.FirstAvailableIndex | parser.py:431-438 | the inner loop stops at the first element with an `available` attribute, or none has one |
| Fields.Sentinel | parser.py:433-437 | an availability flag sets the stock to "10" or "0" |
| Fields.ExtractFields | parser.py:380-449 | the field extraction, loop by loop, computes `Extract` |
| Fields.FindSku | parser.py:381-386 | located value, else non-empty `sku` attribute, else `Item-<idx+1>` |
| Fields.FindModel | parser.py:389-397 | located value, else the namespaced `model` child, else "Unknown Model" |
| Fields.FindPrice | parser.py:400-419 | located value, else the Kaspi nested passes, else "0" |
| Fields.ScanNestedPrice | parser.py:405-416 | the loop over `cityprices`, `prices` runs both passes in order |
| Fields.ScanPricePass | parser.py:408-414 | one pass over the children computes `PricePass` |
| Fields.FindStock | parser.py:422-443 | located value, else the Kaspi availability pass, else "0" |
| Fields.ScanAvailabilities | parser.py:428-438 | the availability loop computes `AvailabilityPass` |
| Fields.ModelRecheckRedundant | parser.py:389-397 | the second namespaced `model` search changes nothing: the model is the located value or "Unknown Model" |
| Fields.SkuAttributeSurvivesMasking | parser.py:381-384 | when a textless namespaced `sku` child hides the attribute from the locator, the `sku` attribute check still yields it |
| Fields.PricePassNoHolder | parser.py:408-414 | a pass without a holder keeps the price as it was |
| Fields.PricePassLastHolder | parser.py:408-414 | `break` leaves only the inner loop, so the last holder's price wins |
| Fields.CityPricesArePrices | parser.py:405-409 | a `cityprices` holder is also a `prices` holder |
| Fields.PricesPassDecides | parser.py:403-416 | the nested price is what the `prices` pass alone gives |
| Fields.LastPricesHolder | parser.py:408-414 | a holder below `n` implies a last holder below `n` |
| Fields.AvailabilityPassNoHolder | parser.py:428-438 | without a holder the stock stays as it was |
| Fields.AvailabilityPassLastHolder | parser.py:428-438 | the last availability holder's sentinel wins |
| Fields.AvailabilityPassValues | parser.py:428-438 | the pass keeps the value or sets "10" or "0" |
| Fields.StockFallbackIsSentinel | parser.py:422-443 | without a located stock the result is "10" or "0" |
| Fields.PlainItemPriceAndStock | parser.py:400-443 | outside Kaspi-tagged items, price and stock are the located values or "0" |
| Fields.DefaultsAreStripped | parser.py:446-449 | stripping leaves the placeholder SKU, "Unknown Model" and "0" unchanged |
| Fields.BareItemDefaults | parser.py:380-449 | an item without children or attributes gets `Item-<idx+1>`, "Unknown Model", "0", "0" |
| Fields.BareResolves | parser.py:380-443 | the same defaults before stripping |
| History.SizeCountsKeys | parser.py:183 | `len(historical_data)` is the number of keys |
| History.Put | parser.py:174-179 | assignment stores the entry, keeps every other key and entry, and grows the size by one only for a new key |
| History.InsertByRecency | parser.py:188-192 | insertion adds exactly the one key |
| History.SortByRecency | parser.py:188-192 | the sort keeps exactly the keys |
| History.InsertKeepsOrder | parser.py:188-192 | insertion keeps keys newest first |
| History.InsertKeepsDistinct | parser.py:188-192 | insertion keeps keys distinct |
| History.SortByRecencyCorrect | parser.py:188-192 | `sorted(..., reverse=True)` orders keys newest first and keeps them distinct |
| History.EvictCorrect | parser.py:186-195 | trimming keeps min(size, 500) entries, each unchanged, and drops nothing from a table that fits |
| History.EvictDropsOldest | parser.py:186-195 | only entries checked no later than every kept one are dropped |
| History.Loaded | parser.py:46-55 | a missing or non-JSON file reads as an empty cache, a stored table reads as itself, and only an unusable file gives none |
| History.RecordStep | parser.py:172-198 | the file is written iff the size is a multiple of 50 or no file exists; a write leaves and writes the trimmed cache, at most 500 entries, and no write leaves the cache as recorded, untrimmed |
| History.AsWrittenCall | parser.py:44-203 | one estimate as written, reloading the file, leaves a valid cache file |
| History.AsWrittenRun | parser.py:44-203 | a run of such estimates leaves a valid cache file |
| History.AsWrittenCallFreezes | parser.py:44-203 | a stored table whose size is neither 0 nor 49 mod 50 is never rewritten |
| History.AsWrittenRunFreezes | parser.py:44-203 | such a file never changes, whatever the number of estimates |
| History.AsWrittenKeepsOnlyFirst | parser.py:44-203 | from no file, only the first estimate of a run ever reaches the file |
| History.FirstCallStores | parser.py:44-198 | from no file, the first estimate writes a one-entry table |
| History.AsWrittenKeepsUndecodable | parser.py:49-55 | a file that is not JSON is read as empty each time and never rewritten |
| History.CorrectedRun | parser.py:172-198 | a run on a cache kept in memory leaves a well-formed cache and a valid file |
| History.Apply | parser.py:172-198 | one record on a cache kept in memory leaves a well-formed cache and a valid file |
| History.PutAll | parser.py:174-179 | recording a run grows the size by at most the run's length |
| History.PutAllHoldsEvery | parser.py:174-179 | every key of a run holds the last entry recorded for it |
| History.CorrectedRunKeepsAll | parser.py:172-198 | while within capacity, a cache kept in memory holds every estimate of the run |
| History.CorrectedRunCreatesFile | parser.py:183 | from no file, the first record creates the file |
| History.EstimateCache.Load | parser.py:46-55 | the cache is read once: usable iff the file can be used, holding what it holds |
| History.EstimateCache.Record | parser.py:172-198 | recording is one `RecordStep`; after a write the file holds the cache |
| Market.Without | parser.py:106 | the filter keeps exactly the sellers other than the excluded one |
| Market.OtherSellersFiltered | parser.py:60-69 | the other sellers are the seven tyre sellers after AIKOS |
| Market.Variation | parser.py:114-124 | the variation lies in [0.90, 1.08] in season and [0.85, 1.05] otherwise, and in the narrower bands [0.91, 1.072] and [0.865, 1.045] for premium brands |
| Market.PremiumPull | parser.py:122-124 | for a premium brand the variation is `v * 0.9 + 0.1` of the plain one, a tenth of the way towards 1 |
| Market.AnyOccursIff | parser.py:42 | the keyword scan succeeds iff some keyword occurs in the lower-cased model |
| Market.FirstBrand | parser.py:82-86 | detection picks a listed brand whose lower-cased name occurs, and picks nothing only if none does |
| Market.PremiumIff | parser.py:74-86 | a model is priced as premium iff its lower-cased name mentions michelin, pirelli or continental |
| Market.PremiumNameMakesTire | parser.py:42 | such a name makes the model a tyre |
| Market.PremiumNameBrand | parser.py:82-86 | such a name is detected as one of the three premium brands |
| Market.TruncToInt | parser.py:127 | `int()` truncates toward zero |
| Market.RoundHundreds | parser.py:130 | `round(n, -2)` is a multiple of 100 within 50 of `n`, ties going to the even hundred |
| Market.RoundHundredsUnique | parser.py:130 | that rounding is the only value with those properties |
| Market.CompetitorPriceBounds | parser.py:114-130 | a rival's price lies within the variation band of ours, up to truncation and rounding |
| Market.DrawnPriceRounded | parser.py:127-130 | a drawn price is a whole multiple of 100 |
| Market.RivalPricesRounded | parser.py:107-137 | every rival's price is a whole multiple of 100 |
| Market.Competitors | parser.py:93-137 | the list starts with AIKOS at our price and has at most one more entry per round |
| Market.DrawnSellersListed | parser.py:107-137 | every drawn seller ends up listed |
| Market.CompetitorNamesDistinct | parser.py:133-137 | the duplicate check keeps the names distinct |
| Market.CompetitorsFromFirstDraws | parser.py:107-137 | each rival is priced by the first round that drew it |
| Market.AtLeastOneCompetitor | parser.py:103-137 | with two or more rounds there are at least two sellers |
| Market.BuildCompetitors | parser.py:93-137 | the competitor loop computes `Competitors` |
| Market.InsertPermutes | parser.py:140 | insertion adds exactly the new competitor to the multiset |
| Market.SortByPricePermutes | parser.py:140 | the sort is a permutation |
| Market.InsertKeepsSorted | parser.py:140 | insertion keeps the list sorted by price |
| Market.SortByPriceSorted | parser.py:140 | the sort orders by price |
| Market.InsertStable | parser.py:140 | insertion puts the new competitor after the others at its price |
| Market.SortByPriceStable | parser.py:140 | the sort is stable: equal prices keep their original order |
| Market.SortKeepsDistinctNames | parser.py:140 | the sort keeps the same names, distinct |
| Market.HeadIsCheapest | parser.py:140-143 | the head of the sorted list is a cheapest competitor |
| Market.PercentDiff | parser.py:149-152 | for a positive price the difference is negative iff cheaper and 0 iff equal; otherwise it is 0 |
| Market.PercentDiffMonotone | parser.py:149-152 | the difference grows with the seller's price |
| Market.Details | parser.py:147-158 | one detail row per seller |
| Market.BuildPriceDetails | parser.py:147-158 | the details loop computes `Details` |
| Market.DetailsOrdered | parser.py:140-158 | down the sorted list, the percentages never decrease |
| Market.HeadlineIsCheapest | parser.py:140-143 | the headline price is a competitor's, no higher than any other and never above ours |
| Market.SellersShape | parser.py:93-158 | the sellers are two to five distinct names including AIKOS, with details one for one |
| Market.HeadlineDifference | parser.py:143-158 | for a positive price the headline seller's difference is never positive, and AIKOS's is 0 |
| Market.RankedDifferences | parser.py:140-158 | the same for any list with AIKOS first at our price and distinct names |
| Market.OwnerKeepsPrice | parser.py:95-140 | after sorting, AIKOS still has our price |
| Market.Estimate | parser.py:17-217 | an unusable cache gives the fallback and changes nothing; otherwise the market snapshot is returned and recorded under the normalized name |
| Extractor.SlicePrefix | parser.py:342 | Python `s[:k]` is a prefix of `s`, of length k for non-negative k and `len + k` for negative k |
| Extractor.Truncate | parser.py:342 | the result is a prefix of the items: all of them when there is no limit or it is 0, at most `max_items` for a positive limit, and all but the last `-max_items` (none when fewer) for a negative one |
| Extractor.ParsePriceComma | parser.py:453-458 | a decimal comma reads as a point, and a text that is not a number reads as 0 |
| Extractor.DecimalComma | parser.py:454-458 | a comma anywhere in the price text parses exactly as a decimal point there would |
| Extractor.AddDifferences | parser.py:464-474 | each estimate gets the percentage difference of its headline price from ours |
| Extractor.DifferenceNeverPositive | parser.py:464-471 | against a positive price the difference is never positive; the fallback's is 0 |
| Extractor.ExtractAll | parser.py:346-449 | one field record per item |
| Extractor.ExtractAllAt | parser.py:346-449 | position k's fields are extracted from item k with index k |
| Extractor.CallsUpTo | parser.py:461 | one cache record per processed item |
| Extractor.RecordsUpTo | parser.py:346-482 | one output record per processed item |
| Extractor.RecordsOf | parser.py:346-482 | one output record per item |
| Extractor.CacheCalls | parser.py:461 | one cache record per item |
| Extractor.RecordsUpToAt | parser.py:476-482 | record k is built from the fields at position k |
| Extractor.RecordsOfAt | parser.py:346-482 | record k carries item k's stripped fields and exactly one estimate |
| Extractor.ProcessItem | parser.py:353-482 | the loop body yields that record and records the estimate when the cache is usable |
| Extractor.ExtractAt | parser.py:380-449 | the loop body's extraction is the item's field record |
| Extractor.ScanItems | parser.py:346-486 | the item loop yields the records in order and applies the run of estimates to the cache |
| Extractor.ScanStep | parser.py:353-482 | one pass of the loop extends the records and the cache run by the next item |
| Extractor.RunStep | parser.py:461 | one more item applies its record to the cache the earlier items left |
| Extractor.ProcessXmlAndScan | parser.py:222-496 | malformed XML gives the invalid-XML error; otherwise the records of the truncated discovered items |
| Extractor.ChildlessRootYieldsNothing | parser.py:263-344 | a root without children gives no records |
| Extractor.LimitBoundsItems | parser.py:342 | a positive limit bounds the processed items, which are the first ones discovered |
| Extractor.BareItemRecord | parser.py:380-482 | an item without children or attributes gets the placeholder SKU and the defaults |

## Left out

- `main.py` and `models.py` are not part of this model.
- XML parsing (`ET.fromstring`) and the namespace registration are left out. A
  `Feed` is either a parsed tree or `Malformed`, and `Malformed` stands for `ET.ParseError`.
- Comments, processing instructions and tails are not in the element tree.
- Python's `float()` is the parameter `Env.toFloat`; NaN and infinities are not modelled.
- `round(x, 2)` on the percentages is left out: differences are exact reals.
- Market.Estimate: `kaspi_price` is the number itself, not `str(min_price)`.
  Likewise the estimator's own `float(str(our_price))` is taken as the identity on
  the float it is given.
- If `kaspi_price` could not be parsed, `price_difference_percent` would be `None`
  (parser.py:472-474). That branch is not modelled: `kaspi_price` is always the
  text of a float.
- `urllib.parse.quote` is left out: the snapshot holds the search text, `kaspi_url` is left out.
- The size regex `(\d+/\d+R\d+)` is left out: its result is never used.
- Logging is left out.
- I/O errors while writing the cache are left out: in the source they are logged and ignored.
- The randomness, the clock and the month are parameters: `Draw` values for `random.randint`,
  `random.choice` and `random.uniform`, a timestamp per item, and a month per item.
  The draws of one estimate have the type `Market.Rounds`: two to four rounds, as
  `random.randint(2, 4)` gives, each with a seller index and a `uniform` value in range.
- A JSON cache object whose values are not objects is left out; a
  JSON value that is not an object, or a file that is not UTF-8, is `Unusable` and gives the fallback.
- Text.Lower: folds ASCII A-Z and Cyrillic U+0400..U+042F only. Kazakh and other extended
  Cyrillic capitals (for instance Қ U+049A, Ә U+04D8, Ө U+04E8) and all other scripts are
  left as they are, so two names that differ only in the case of such a letter share a key
  in the source but not in the model.
- Market.Estimate: uses the cache kept in memory (`History.EstimateCache`), not the per-call
  reload of the source; the reload is modelled separately (see Findings).
- The per-item `except Exception: continue` is not modelled: no step of the modelled item
  path raises, so every processed item gives exactly one record.

Where the code and its documentation disagree, the model follows the code:
- the fallback's `price_difference_percent` is 0, not null;
- the `.//*` last resort never fires (Discovery.FallbackNeverUsed);
- the `б/к` step of the key never removes anything (Normalize.TubelessStepIsNoOp).

## Findings

| source | as written | input that shows it | evidently intended | confidence | as-written member | corrected member |
|---|---|---|---|---|---|---|
| parser.py:44-203 | the cache is reloaded from the file on every estimate, so entries that are not flushed are lost when the call returns | no cache file, then two estimates for different models: the first writes a one-entry file, the second reloads it, has two entries, is not due to flush, and is lost | the cache accumulates across estimates and is written every fiftieth entry | not executed | History.AsWrittenKeepsOnlyFirst | History.CorrectedRunKeepsAll |
