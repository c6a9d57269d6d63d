/**
 * The feed processor `process_xml_and_scan` (parser.py:219-486): discover
 * the items, keep at most `max_items` of them, extract each item's fields,
 * estimate its market position and add the difference between the headline
 * price and ours.
 */
module Extractor {
  import opened Wrappers
  import opened Text
  import opened Normalize
  import opened Tree
  import opened Discovery
  import opened Fields
  import opened History
  import opened Market

  /** The parsed document, or a document that is not well-formed XML. */
  datatype Feed = Malformed | Parsed(root: Element)

  /** The outcome: the records, or the "Invalid XML format" error. */
  datatype Outcome = Records(records: seq<ItemRecord>) | InvalidXml

  /** One processed item: its fields as text and its market estimates. */
  datatype ItemRecord = ItemRecord(sku: string, model: string, ourPrice: string, stock: string, kaspiResults: seq<Snapshot>)

  /**
   * What the processor takes from outside for the item at position `i`:
   * the month and the timestamp of its estimate, its random draws, and
   * Python's `float()` on a text.
   */
  datatype Env = Env(month: nat -> int, now: nat -> string, draws: nat -> Rounds, toFloat: string -> Option<real>)

  // -------------------------------------------------------- truncation

  /** Python's `s[:k]`, including a negative `k`, which counts from the end. */
  function SlicePrefix<T>(s: seq<T>, k: int): (r: seq<T>)
    ensures r <= s
    ensures 0 <= k ==> |r| == if k < |s| then k else |s|
    ensures k < 0 ==> |r| == if |s| + k > 0 then |s| + k else 0
  {
    if k >= 0 then (if k < |s| then s[..k] else s)
    else if |s| + k > 0 then s[..|s| + k] else []
  }

  /** `items[:max_items] if max_items and len(items) > max_items else items`. */
  function Truncate<T>(items: seq<T>, maxItems: Option<int>): (r: seq<T>)
    ensures r <= items
    ensures maxItems == None || maxItems == Some(0) ==> r == items
    ensures maxItems.Some? && maxItems.value > 0 ==> |r| == if |items| < maxItems.value then |items| else maxItems.value
    ensures maxItems.Some? && maxItems.value < 0 ==> |r| == if |items| + maxItems.value > 0 then |items| + maxItems.value else 0
  {
    match maxItems
    case None => items
    case Some(m) => if m != 0 && |items| > m then SlicePrefix(items, m) else items
  }

  // ------------------------------------------------------------- price

  /** `float(price.replace(',', '.').strip())`, or 0 when the text is not a number. */
  function ParsePrice(price: string, toFloat: string -> Option<real>): real {
    toFloat(Strip(ReplaceChar(price, ',', '.'))).GetOr(0.0)
  }

  /** A decimal comma reads as a decimal point, and a text that is not a number reads as 0. */
  lemma ParsePriceComma(price: string, toFloat: string -> Option<real>)
    ensures ParsePrice(price, toFloat) == ParsePrice(ReplaceChar(price, ',', '.'), toFloat)
    ensures toFloat(Strip(ReplaceChar(price, ',', '.'))).None? ==> ParsePrice(price, toFloat) == 0.0
  {
    var once := ReplaceChar(price, ',', '.');
    assert ReplaceChar(once, ',', '.') == once;
  }

  /** A comma anywhere in the price text parses exactly as a decimal point would there. */
  lemma DecimalComma(a: string, b: string, toFloat: string -> Option<real>)
    ensures ParsePrice(a + [','] + b, toFloat) == ParsePrice(a + ['.'] + b, toFloat)
  {
    var s, t := a + [','] + b, a + ['.'] + b;
    assert ReplaceChar(s, ',', '.') == ReplaceChar(t, ',', '.') by {
      assert forall i :: 0 <= i < |s| ==> (i == |a| || s[i] == t[i]);
    }
  }

  // ------------------------------------------------------- differences

  /** `price_difference_percent` for one estimate, against our parsed price. */
  function WithDifference(s: Snapshot, our: real): Snapshot {
    s.(percent := Some(PercentDiff(s.kaspiPrice, our)))
  }

  /** The loop over the estimates adding the difference to each. */
  method AddDifferences(results: seq<Snapshot>, our: real) returns (out: seq<Snapshot>)
    ensures |out| == |results|
    ensures forall i :: 0 <= i < |out| ==> out[i] == WithDifference(results[i], our)
  {
    out := [];
    for i := 0 to |results|
      invariant |out| == i
      invariant forall k :: 0 <= k < i ==> out[k] == WithDifference(results[k], our)
    {
      var diff := if our > 0.0 then (results[i].kaspiPrice - our) / our * 100.0 else 0.0;
      out := out + [results[i].(percent := Some(diff))];
    }
  }

  /**
   * Against a positive price the market difference is never positive (our
   * shop is always among the sellers), and the fallback's is always 0.
   */
  lemma DifferenceNeverPositive(model: string, our: real, month: int, ds: seq<Draw>)
    requires ValidDraws(ds)
    ensures our > 0.0 ==> WithDifference(MarketSnapshot(model, our, month, ds), our).percent.value <= 0.0
    ensures WithDifference(Fallback(model, our), our).percent == Some(0.0)
  {
    HeadlineIsCheapest(model, our, month, ds);
  }

  // ------------------------------------------------------------ records

  /** The estimate for an item's fields, at its position, from a usable cache or from the fallback. */
  function SnapshotFor(f: ItemFields, i: nat, env: Env, usable: bool): Snapshot
  {
    var our := ParsePrice(f.price, env.toFloat);
    if usable then MarketSnapshot(f.model, our, env.month(i), env.draws(i)) else Fallback(f.model, our)
  }

  /** The record for the item at position `i`, from its extracted fields. */
  function RecordFor(f: ItemFields, i: nat, env: Env, usable: bool): ItemRecord
  {
    var our := ParsePrice(f.price, env.toFloat);
    ItemRecord(f.sku, f.model, f.price, f.stock, [WithDifference(SnapshotFor(f, i, env, usable), our)])
  }

  /** The cache record an item makes: its normalized model name and its estimate. */
  function ItemCall(f: ItemFields, i: nat, env: Env): (string, CacheEntry)
  {
    (NormalizeName(f.model), EntryFor(SnapshotFor(f, i, env, true), env.now(i)))
  }

  /** `[f(xs[0], 0), ..., f(xs[n - 1], n - 1)]`: a function applied to each element and its position. */
  function MapUpTo<A, B>(f: (A, nat) -> B, xs: seq<A>, n: nat): (r: seq<B>)
    requires n <= |xs|
    ensures |r| == n
  {
    if n == 0 then [] else MapUpTo(f, xs, n - 1) + [f(xs[n - 1], n - 1)]
  }

  /** One more position extends the map by the value at that position. */
  lemma MapUpToSnoc<A, B>(f: (A, nat) -> B, xs: seq<A>, n: nat)
    requires n < |xs|
    ensures MapUpTo(f, xs, n + 1) == MapUpTo(f, xs, n) + [f(xs[n], n)]
  {
  }

  lemma {:induction false} MapUpToAt<A, B>(f: (A, nat) -> B, xs: seq<A>, n: nat, k: nat)
    requires n <= |xs| && k < n
    ensures MapUpTo(f, xs, n)[k] == f(xs[k], k)
  {
    if k < n - 1 {
      MapUpToAt(f, xs, n - 1, k);
    }
  }

  /** The fields of the items, each extracted at its own position. */
  function ExtractAll(items: seq<Element>): (r: seq<ItemFields>)
    ensures |r| == |items|
  {
    MapUpTo(Extract, items, |items|)
  }

  /** The fields at position `k` are those extracted from the item at `k`. */
  lemma ExtractAllAt(items: seq<Element>, k: nat)
    requires k < |items|
    ensures ExtractAll(items)[k] == Extract(items[k], k)
  {
    MapUpToAt(Extract, items, |items|, k);
  }

  /** The cache records of the first `n` items, in order. */
  function CallsUpTo(fs: seq<ItemFields>, env: Env, n: nat): (r: seq<(string, CacheEntry)>)
    requires n <= |fs|
    ensures |r| == n
  {
    MapUpTo((f, i) => ItemCall(f, i, env), fs, n)
  }

  /** The records of the first `n` items, in order. */
  function RecordsUpTo(fs: seq<ItemFields>, env: Env, usable: bool, n: nat): (r: seq<ItemRecord>)
    requires n <= |fs|
    ensures |r| == n
  {
    MapUpTo(Recorder(env, usable), fs, n)
  }

  /** RecordFor as a function of the fields and the position. */
  function Recorder(env: Env, usable: bool): (ItemFields, nat) -> ItemRecord {
    (f: ItemFields, i: nat) => RecordFor(f, i, env, usable)
  }

  /** The records of the items, in order. */
  function RecordsOf(items: seq<Element>, env: Env, usable: bool): (r: seq<ItemRecord>)
    ensures |r| == |items|
  {
    RecordsUpTo(ExtractAll(items), env, usable, |items|)
  }

  /** The cache records the items make, in order. */
  function CacheCalls(items: seq<Element>, env: Env): (r: seq<(string, CacheEntry)>)
    ensures |r| == |items|
  {
    CallsUpTo(ExtractAll(items), env, |items|)
  }

  /** One record per item, in order: the record at position `k` is made from the fields at `k`. */
  lemma RecordsUpToAt(fs: seq<ItemFields>, env: Env, usable: bool, n: nat, k: nat)
    requires n <= |fs| && k < n
    ensures RecordsUpTo(fs, env, usable, n)[k] == RecordFor(fs[k], k, env, usable)
  {
    MapUpToAt(Recorder(env, usable), fs, n, k);
  }

  /** The record at position `k` carries the fields extracted from the item at `k` and one estimate. */
  lemma RecordsOfAt(items: seq<Element>, env: Env, usable: bool, k: nat)
    requires k < |items|
    ensures var f := Extract(items[k], k);
      RecordsOf(items, env, usable)[k] == RecordFor(f, k, env, usable)
  {
    ExtractAllAt(items, k);
    RecordsUpToAt(ExtractAll(items), env, usable, |items|, k);
  }

  /** The items the processor works through. */
  function ItemsToProcess(root: Element, maxItems: Option<int>): seq<Element> {
    Truncate(Discover(root), maxItems)
  }

  /** The processing of one item's fields, as the loop body performs it. */
  method ProcessItem(f: ItemFields, i: nat, env: Env, cache: EstimateCache) returns (rec: ItemRecord)
    requires cache.Valid()
    modifies cache
    ensures cache.Valid()
    ensures rec == RecordFor(f, i, env, cache.usable)
    ensures !cache.usable ==> cache.memory == old(cache.memory) && cache.disk == old(cache.disk)
    ensures cache.usable ==> (cache.memory, cache.disk) == Apply(old(cache.memory), old(cache.disk), ItemCall(f, i, env))
  {
    var our := ParsePrice(f.price, env.toFloat);
    var estimate := Estimate(f.model, our, env.month(i), env.draws(i), env.now(i), cache);
    var results := AddDifferences([estimate], our);
    rec := ItemRecord(f.sku, f.model, f.price, f.stock, results);
  }

  /**
   * `process_xml_and_scan`: an error for a malformed document; otherwise
   * one record per item kept, in discovery order, with the cache updated
   * item by item.
   */
  method ProcessXmlAndScan(feed: Feed, maxItems: Option<int>, env: Env, cache: EstimateCache) returns (out: Outcome)
    requires cache.Valid()
    modifies cache
    ensures cache.Valid()
    ensures feed.Malformed? ==> out == InvalidXml
    ensures feed.Parsed? ==> out == Records(RecordsOf(ItemsToProcess(feed.root, maxItems), env, cache.usable))
    ensures feed.Parsed? && cache.usable ==>
      (cache.memory, cache.disk) == CorrectedRun(old(cache.memory), old(cache.disk), CacheCalls(ItemsToProcess(feed.root, maxItems), env))
    ensures feed.Malformed? || !cache.usable ==> cache.memory == old(cache.memory) && cache.disk == old(cache.disk)
  {
    if feed.Malformed? {
      return InvalidXml;
    }
    var all := DiscoverItems(feed.root);
    var items := Truncate(all, maxItems);
    var records := ScanItems(items, env, cache);
    out := Records(records);
  }

  /** The fields of the item at position `i`, extracted as the loop body does. */
  method ExtractAt(items: seq<Element>, i: nat, ghost fs: seq<ItemFields>) returns (f: ItemFields)
    requires i < |items| && fs == ExtractAll(items)
    ensures f == fs[i]
  {
    f := ExtractFields(items[i], i);
    ExtractAllAt(items, i);
  }

  /** One more item extends the run of the cache by that item's record. */
  lemma CallsUpToStep(fs: seq<ItemFields>, env: Env, i: nat)
    requires i < |fs|
    ensures var calls := CallsUpTo(fs, env, i + 1);
      calls[..i] == CallsUpTo(fs, env, i) && calls[i] == ItemCall(fs[i], i, env)
  {
  }

  /** One more item applies that item's record to the cache the earlier items left. */
  lemma RunStep(t: Table, file: CacheFile, fs: seq<ItemFields>, env: Env, i: nat)
    requires WellFormed(t) && ValidFile(file) && i < |fs|
    ensures var prev := CorrectedRun(t, file, CallsUpTo(fs, env, i));
      CorrectedRun(t, file, CallsUpTo(fs, env, i + 1)) == Apply(prev.0, prev.1, ItemCall(fs[i], i, env))
  {
    CallsUpToStep(fs, env, i);
  }

  /** The loop over the kept items: extract the fields, then estimate. */
  method ScanItems(items: seq<Element>, env: Env, cache: EstimateCache) returns (records: seq<ItemRecord>)
    requires cache.Valid()
    modifies cache
    ensures cache.Valid()
    ensures records == RecordsOf(items, env, cache.usable)
    ensures cache.usable ==> (cache.memory, cache.disk) == CorrectedRun(old(cache.memory), old(cache.disk), CacheCalls(items, env))
    ensures !cache.usable ==> cache.memory == old(cache.memory) && cache.disk == old(cache.disk)
  {
    ghost var fs := ExtractAll(items);
    records := [];
    for i := 0 to |items|
      invariant cache.Valid()
      invariant records == RecordsUpTo(fs, env, cache.usable, i)
      invariant cache.usable ==> (cache.memory, cache.disk) == CorrectedRun(old(cache.memory), old(cache.disk), CallsUpTo(fs, env, i))
      invariant !cache.usable ==> cache.memory == old(cache.memory) && cache.disk == old(cache.disk)
    {
      records := ScanStep(items, i, env, cache, fs, old(cache.memory), old(cache.disk), records);
    }
  }

  /** One pass of the loop in ScanItems: the records and the cache run grow by item `i`. */
  method ScanStep(items: seq<Element>, i: nat, env: Env, cache: EstimateCache, ghost fs: seq<ItemFields>,
                  ghost t: Table, ghost file: CacheFile, done: seq<ItemRecord>)
    returns (records: seq<ItemRecord>)
    requires cache.Valid() && WellFormed(t) && ValidFile(file)
    requires i < |items| && fs == ExtractAll(items)
    requires done == RecordsUpTo(fs, env, cache.usable, i)
    requires cache.usable ==> (cache.memory, cache.disk) == CorrectedRun(t, file, CallsUpTo(fs, env, i))
    modifies cache
    ensures cache.Valid()
    ensures records == RecordsUpTo(fs, env, cache.usable, i + 1)
    ensures cache.usable ==> (cache.memory, cache.disk) == CorrectedRun(t, file, CallsUpTo(fs, env, i + 1))
    ensures !cache.usable ==> cache.memory == old(cache.memory) && cache.disk == old(cache.disk)
  {
    var f := ExtractAt(items, i, fs);
    if cache.usable {
      RunStep(t, file, fs, env, i);
    }
    var rec := ProcessItem(f, i, env, cache);
    MapUpToSnoc(Recorder(env, cache.usable), fs, i);
    records := done + [rec];
  }

  /** A document whose root has no children yields no records. */
  lemma ChildlessRootYieldsNothing(root: Element, maxItems: Option<int>)
    requires root.children == []
    ensures ItemsToProcess(root, maxItems) == []
  {
    DiscoverEmptyIffChildless(root);
  }

  /** With a positive limit, at most that many items are processed, and they are the first ones discovered. */
  lemma LimitBoundsItems(root: Element, m: int)
    requires m > 0
    ensures |ItemsToProcess(root, Some(m))| <= m
    ensures ItemsToProcess(root, Some(m)) <= Discover(root)
  {
  }

  /** Items without children or attributes get the placeholder SKU for their position and the defaults. */
  lemma BareItemRecord(item: Element, i: nat, env: Env, usable: bool)
    requires item.children == [] && item.attrib == map[]
    ensures var r := RecordFor(Extract(item, i), i, env, usable);
      r.sku == Placeholder(i) && r.model == UnknownModel && r.ourPrice == ZeroText && r.stock == ZeroText
      && |r.kaspiResults| == 1
  {
    BareItemDefaults(item, i);
  }
}
