/**
 * Field extraction for one catalogue item (parser.py:380-449): SKU, model,
 * price and stock are looked up by candidate names, with Kaspi-specific
 * fallbacks and defaults, and every value is finally stripped of
 * surrounding whitespace.
 */
module Fields {
  import opened Wrappers
  import opened Text
  import opened Tree
  import opened Locator

  /** Candidate names: sku, артикул, код, id. */
  const SkuNames: seq<string> := ["sku", "\U{0430}\U{0440}\U{0442}\U{0438}\U{043A}\U{0443}\U{043B}", "\U{043A}\U{043E}\U{0434}", "id"]
  /** Candidate names: model, название, name, title, модель. */
  const ModelNames: seq<string> := ["model", "\U{043D}\U{0430}\U{0437}\U{0432}\U{0430}\U{043D}\U{0438}\U{0435}", "name", "title", "\U{043C}\U{043E}\U{0434}\U{0435}\U{043B}\U{044C}"]
  /** Candidate names: price, цена, cost, стоимость. */
  const PriceNames: seq<string> := ["price", "\U{0446}\U{0435}\U{043D}\U{0430}", "cost", "\U{0441}\U{0442}\U{043E}\U{0438}\U{043C}\U{043E}\U{0441}\U{0442}\U{044C}"]
  /** Candidate names: stock, остаток, количество, quantity. */
  const StockNames: seq<string> := ["stock", "\U{043E}\U{0441}\U{0442}\U{0430}\U{0442}\U{043E}\U{043A}", "\U{043A}\U{043E}\U{043B}\U{0438}\U{0447}\U{0435}\U{0441}\U{0442}\U{0432}\U{043E}", "quantity"]

  const UnknownModel: string := "Unknown Model"
  const ZeroText: string := "0"
  const InStockText: string := "10"
  /** The price-container tags tried in turn on Kaspi items. */
  const PriceContainerKeys: seq<string> := ["cityprices", "prices"]

  /** Python truthiness of a located value: present and non-empty. */
  predicate Truthy(v: Option<string>) {
    v.Some? && v.value != ""
  }

  /** `if not v: v = default`. */
  function OrDefault(v: Option<string>, default: string): string {
    if Truthy(v) then v.value else default
  }

  /** The SKU given to an item that has none: `Item-<position from 1>`. */
  function Placeholder(idx: nat): string {
    "Item-" + NatToString(idx + 1)
  }

  /** Whether the item's tag, lower-cased, mentions Kaspi. */
  predicate KaspiTagged(item: Element) {
    Contains(Lower(item.tag), "kaspi")
  }

  // ---------------------------------------------------------------- SKU

  /** The SKU before stripping: located value, else the `sku` attribute, else the placeholder. */
  function ResolveSku(item: Element, idx: nat): (r: string)
    ensures r != ""
  {
    var v := Locate(item, SkuNames);
    var w := if !Truthy(v) && "sku" in item.attrib then Some(item.attrib["sku"]) else v;
    OrDefault(w, Placeholder(idx))
  }

  // -------------------------------------------------------------- model

  /** The second look for a namespaced `model` child after the locator gave nothing usable. */
  function ModelRecheck(item: Element, v: Option<string>): Option<string> {
    if Truthy(v) then v
    else match FirstNamespaced(item.children, "model")
      case Some(c) => c.text
      case None => v
  }

  /** The model before stripping. */
  function ResolveModel(item: Element): (r: string)
    ensures r != ""
  {
    OrDefault(ModelRecheck(item, Locate(item, ModelNames)), UnknownModel)
  }

  // -------------------------------------------------------------- price

  /** Whether a tag mentions "price" once lower-cased. */
  predicate PriceTagged(e: Element) {
    Contains(Lower(e.tag), "price")
  }

  /** The position of the first price-tagged element. */
  function FirstPriceIndex(cs: seq<Element>): (r: Option<nat>)
    ensures r.Some? ==> r.value < |cs| && PriceTagged(cs[r.value])
    ensures r.Some? ==> forall m :: 0 <= m < r.value ==> !PriceTagged(cs[m])
    ensures r.None? ==> forall m :: 0 <= m < |cs| ==> !PriceTagged(cs[m])
  {
    if cs == [] then None
    else if PriceTagged(cs[0]) then Some(0)
    else match FirstPriceIndex(cs[1..])
      case Some(i) => Some(i + 1)
      case None => None
  }

  /** A child that sets the price in a pass for `key`: its tag mentions `key` and it holds a price-tagged element. */
  predicate PriceHolder(c: Element, key: string) {
    Contains(Lower(c.tag), key) && FirstPriceIndex(c.children).Some?
  }

  /** The text of the first price-tagged element of a holder. */
  function HolderPrice(c: Element, key: string): Option<string>
    requires PriceHolder(c, key)
  {
    c.children[FirstPriceIndex(c.children).value].text
  }

  /**
   * One pass over the children for one container key: every holder
   * overwrites the value, so the last holder wins and, without a holder, the
   * value is left as it was.
   */
  function PricePass(cs: seq<Element>, key: string, current: Option<string>): Option<string>
    decreases |cs|
  {
    if cs == [] then current
    else
      var last := cs[|cs| - 1];
      if PriceHolder(last, key) then HolderPrice(last, key)
      else PricePass(cs[..|cs| - 1], key, current)
  }

  /** The passes for a list of container keys, in order. */
  function PricePasses(cs: seq<Element>, keys: seq<string>, current: Option<string>): Option<string>
    decreases |keys|
  {
    if keys == [] then current
    else PricePass(cs, keys[|keys| - 1], PricePasses(cs, keys[..|keys| - 1], current))
  }

  /** The Kaspi nested-price search: the `cityprices` pass, then the `prices` pass. */
  function NestedPrice(cs: seq<Element>, current: Option<string>): Option<string> {
    PricePasses(cs, PriceContainerKeys, current)
  }

  /** The price text before stripping. */
  function ResolvePrice(item: Element): (r: string)
    ensures r != ""
  {
    var v := Locate(item, PriceNames);
    var w := if !Truthy(v) && KaspiTagged(item) then NestedPrice(item.children, v) else v;
    OrDefault(w, ZeroText)
  }

  // -------------------------------------------------------------- stock

  /** The position of the first element carrying an `available` attribute. */
  function FirstAvailableIndex(cs: seq<Element>): (r: Option<nat>)
    ensures r.Some? ==> r.value < |cs| && "available" in cs[r.value].attrib
    ensures r.Some? ==> forall m :: 0 <= m < r.value ==> "available" !in cs[m].attrib
    ensures r.None? ==> forall m :: 0 <= m < |cs| ==> "available" !in cs[m].attrib
  {
    if cs == [] then None
    else if "available" in cs[0].attrib then Some(0)
    else match FirstAvailableIndex(cs[1..])
      case Some(i) => Some(i + 1)
      case None => None
  }

  /** A child that sets the stock: its tag mentions `availabilities` and it holds an element with `available`. */
  predicate AvailabilityHolder(c: Element) {
    Contains(Lower(c.tag), "availabilities") && FirstAvailableIndex(c.children).Some?
  }

  /** "10" when the `available` attribute reads "yes" in any case, "0" otherwise. */
  function Sentinel(flag: string): (r: string)
    ensures r == InStockText || r == ZeroText
  {
    if Lower(flag) == "yes" then InStockText else ZeroText
  }

  /** The stock sentinel a holder sets. */
  function HolderStock(c: Element): string
    requires AvailabilityHolder(c)
  {
    Sentinel(c.children[FirstAvailableIndex(c.children).value].attrib["available"])
  }

  /** The pass over the children for availabilities: the last holder wins. */
  function AvailabilityPass(cs: seq<Element>, current: Option<string>): Option<string>
    decreases |cs|
  {
    if cs == [] then current
    else
      var last := cs[|cs| - 1];
      if AvailabilityHolder(last) then Some(HolderStock(last))
      else AvailabilityPass(cs[..|cs| - 1], current)
  }

  /** The stock text before stripping. */
  function ResolveStock(item: Element): (r: string)
    ensures r != ""
  {
    var v := Locate(item, StockNames);
    var w := if !Truthy(v) && KaspiTagged(item) then AvailabilityPass(item.children, v) else v;
    OrDefault(w, ZeroText)
  }

  // ------------------------------------------------------------- record

  /** The four extracted fields, each stripped. */
  datatype ItemFields = ItemFields(sku: string, model: string, price: string, stock: string)

  /** What the per-item extraction produces for the item at position `idx`. */
  function Extract(item: Element, idx: nat): ItemFields {
    ItemFields(Strip(ResolveSku(item, idx)), Strip(ResolveModel(item)), Strip(ResolvePrice(item)), Strip(ResolveStock(item)))
  }

  // ------------------------------------------------------------ methods

  /** The extraction as the source performs it, loop by loop. */
  method ExtractFields(item: Element, idx: nat) returns (f: ItemFields)
    ensures f == Extract(item, idx)
  {
    var sku := FindSku(item, idx);
    var model := FindModel(item);
    var price := FindPrice(item);
    var stock := FindStock(item);
    f := ItemFields(Strip(sku), Strip(model), Strip(price), Strip(stock));
  }

  method FindSku(item: Element, idx: nat) returns (sku: string)
    ensures sku == ResolveSku(item, idx)
  {
    var v := FindElementText(item, SkuNames);
    if !Truthy(v) && "sku" in item.attrib {
      v := Some(item.attrib["sku"]);
    }
    if !Truthy(v) {
      v := Some(Placeholder(idx));
    }
    sku := v.value;
  }

  method FindModel(item: Element) returns (model: string)
    ensures model == ResolveModel(item)
  {
    var v := FindElementText(item, ModelNames);
    if !Truthy(v) {
      var c := ScanNamespaced(item.children, "model");
      if c.Some? {
        v := c.value.text;
      }
    }
    if !Truthy(v) {
      v := Some(UnknownModel);
    }
    model := v.value;
  }

  method FindPrice(item: Element) returns (price: string)
    ensures price == ResolvePrice(item)
  {
    var v := FindElementText(item, PriceNames);
    if !Truthy(v) && KaspiTagged(item) {
      v := ScanNestedPrice(item.children, v);
    }
    if !Truthy(v) {
      v := Some(ZeroText);
    }
    price := v.value;
  }

  /** The loop over the container keys. */
  method ScanNestedPrice(cs: seq<Element>, current: Option<string>) returns (r: Option<string>)
    ensures r == NestedPrice(cs, current)
  {
    r := current;
    for i := 0 to |PriceContainerKeys|
      invariant r == PricePasses(cs, PriceContainerKeys[..i], current)
    {
      assert PriceContainerKeys[..i + 1][..i] == PriceContainerKeys[..i];
      r := ScanPricePass(cs, PriceContainerKeys[i], r);
    }
    assert PriceContainerKeys[..|PriceContainerKeys|] == PriceContainerKeys;
  }

  /** One pass: the loop over the children and, inside it, the loop over their children. */
  method ScanPricePass(cs: seq<Element>, key: string, current: Option<string>) returns (r: Option<string>)
    ensures r == PricePass(cs, key, current)
  {
    r := current;
    for j := 0 to |cs|
      invariant r == PricePass(cs[..j], key, current)
    {
      assert cs[..j + 1][..j] == cs[..j];
      if Contains(Lower(cs[j].tag), key) {
        var gs := cs[j].children;
        for k := 0 to |gs|
          invariant forall m :: 0 <= m < k ==> !PriceTagged(gs[m])
          invariant r == PricePass(cs[..j], key, current)
        {
          if PriceTagged(gs[k]) {
            r := gs[k].text;
            break;
          }
        }
      }
    }
    assert cs[..|cs|] == cs;
  }

  method FindStock(item: Element) returns (stock: string)
    ensures stock == ResolveStock(item)
  {
    var v := FindElementText(item, StockNames);
    if !Truthy(v) && KaspiTagged(item) {
      v := ScanAvailabilities(item.children, v);
    }
    if !Truthy(v) {
      v := Some(ZeroText);
    }
    stock := v.value;
  }

  /** The loop over the children looking for availability flags. */
  method ScanAvailabilities(cs: seq<Element>, current: Option<string>) returns (r: Option<string>)
    ensures r == AvailabilityPass(cs, current)
  {
    r := current;
    for j := 0 to |cs|
      invariant r == AvailabilityPass(cs[..j], current)
    {
      assert cs[..j + 1][..j] == cs[..j];
      if Contains(Lower(cs[j].tag), "availabilities") {
        var gs := cs[j].children;
        for k := 0 to |gs|
          invariant forall m :: 0 <= m < k ==> "available" !in gs[m].attrib
          invariant r == AvailabilityPass(cs[..j], current)
        {
          if "available" in gs[k].attrib {
            r := Some(Sentinel(gs[k].attrib["available"]));
            break;
          }
        }
      }
    }
    assert cs[..|cs|] == cs;
  }

  // ------------------------------------------------------------- lemmas

  /**
   * The second look for a namespaced `model` child never changes the
   * outcome: when the locator gives nothing usable for the model names, the
   * first child ending in `}model` (if any) already ended the locator's
   * search with the same unusable text.
   */
  lemma ModelRecheckRedundant(item: Element)
    ensures ResolveModel(item) == OrDefault(Locate(item, ModelNames), UnknownModel)
  {
    var v := Locate(item, ModelNames);
    if !Truthy(v) && FirstNamespaced(item.children, "model").Some? {
      assert ModelNames[0] == "model";
      assert ElementHit(item, ModelNames[0]);
      FirstElementHitWins(item, ModelNames, 0);
    }
  }

  /**
   * The extra `sku` attribute check matters exactly when a namespaced `sku`
   * child without text has ended the locator's search: the locator then
   * gives None, and the attribute still supplies the SKU.
   */
  lemma SkuAttributeSurvivesMasking(item: Element, idx: nat)
    requires forall c :: c in item.children ==> c.tag != "sku"
    requires FirstNamespaced(item.children, "sku").Some? && FirstNamespaced(item.children, "sku").value.text.None?
    requires "sku" in item.attrib && item.attrib["sku"] != ""
    ensures Locate(item, SkuNames) == None
    ensures ResolveSku(item, idx) == item.attrib["sku"]
  {
    assert SkuNames[0] == "sku";
    assert ElementHit(item, SkuNames[0]);
    FirstElementHitWins(item, SkuNames, 0);
  }

  /** Without a holder, a pass leaves the value as it was. */
  lemma {:induction false} PricePassNoHolder(cs: seq<Element>, key: string, current: Option<string>)
    requires forall m :: 0 <= m < |cs| ==> !PriceHolder(cs[m], key)
    ensures PricePass(cs, key, current) == current
  {
    if cs != [] {
      PricePassNoHolder(cs[..|cs| - 1], key, current);
    }
  }

  /** With holders, a pass yields the price of the last one, whatever the value before it. */
  lemma {:induction false} PricePassLastHolder(cs: seq<Element>, key: string, current: Option<string>, i: nat)
    requires i < |cs| && PriceHolder(cs[i], key)
    requires forall m :: i < m < |cs| ==> !PriceHolder(cs[m], key)
    ensures PricePass(cs, key, current) == HolderPrice(cs[i], key)
  {
    if i < |cs| - 1 {
      PricePassLastHolder(cs[..|cs| - 1], key, current, i);
    }
  }

  /** Any tag that mentions `cityprices` also mentions `prices`. */
  lemma CityPricesArePrices(c: Element)
    requires PriceHolder(c, "cityprices")
    ensures PriceHolder(c, "prices")
  {
    assert "city" + "prices" == "cityprices";
    ContainsSuffixOf(Lower(c.tag), "city", "prices");
  }

  /**
   * The `cityprices` pass is subsumed: the nested search ends with whatever
   * the `prices` pass alone gives, since every `cityprices` holder is also a
   * `prices` holder and the later pass overwrites.
   */
  lemma PricesPassDecides(cs: seq<Element>, current: Option<string>)
    ensures NestedPrice(cs, current) == PricePass(cs, "prices", current)
  {
    var k := PriceContainerKeys;
    assert k[..1][..0] == [] && k[..1][0] == "cityprices" && k[..|k| - 1] == k[..1] && k[|k| - 1] == "prices";
    var afterCity := PricePass(cs, "cityprices", current);
    assert PricePasses(cs, k[..1], current) == PricePass(cs, "cityprices", PricePasses(cs, [], current));
    assert NestedPrice(cs, current) == PricePass(cs, "prices", PricePasses(cs, k[..1], current));
    if exists m :: 0 <= m < |cs| && PriceHolder(cs[m], "prices") {
      var i := LastPricesHolder(cs, |cs|);
      PricePassLastHolder(cs, "prices", afterCity, i);
      PricePassLastHolder(cs, "prices", current, i);
    } else {
      forall m | 0 <= m < |cs| ensures !PriceHolder(cs[m], "cityprices") {
        if PriceHolder(cs[m], "cityprices") {
          CityPricesArePrices(cs[m]);
        }
      }
      PricePassNoHolder(cs, "cityprices", current);
    }
  }

  /** The position of the last `prices` holder below `n`. */
  function LastPricesHolder(cs: seq<Element>, n: nat): (i: nat)
    requires n <= |cs|
    requires exists m :: 0 <= m < n && PriceHolder(cs[m], "prices")
    ensures i < n && PriceHolder(cs[i], "prices")
    ensures forall m :: i < m < n ==> !PriceHolder(cs[m], "prices")
  {
    if PriceHolder(cs[n - 1], "prices") then n - 1 else LastPricesHolder(cs, n - 1)
  }

  /** Without a holder, the availability pass leaves the value as it was. */
  lemma {:induction false} AvailabilityPassNoHolder(cs: seq<Element>, current: Option<string>)
    requires forall m :: 0 <= m < |cs| ==> !AvailabilityHolder(cs[m])
    ensures AvailabilityPass(cs, current) == current
  {
    if cs != [] {
      AvailabilityPassNoHolder(cs[..|cs| - 1], current);
    }
  }

  /** With holders, the availability pass yields the sentinel of the last one. */
  lemma {:induction false} AvailabilityPassLastHolder(cs: seq<Element>, current: Option<string>, i: nat)
    requires i < |cs| && AvailabilityHolder(cs[i])
    requires forall m :: i < m < |cs| ==> !AvailabilityHolder(cs[m])
    ensures AvailabilityPass(cs, current) == Some(HolderStock(cs[i]))
  {
    if i < |cs| - 1 {
      AvailabilityPassLastHolder(cs[..|cs| - 1], current, i);
    }
  }

  /** The availability pass either keeps the value or sets one of the two sentinels. */
  lemma {:induction false} AvailabilityPassValues(cs: seq<Element>, current: Option<string>)
    ensures var r := AvailabilityPass(cs, current);
      r == current || r == Some(InStockText) || r == Some(ZeroText)
  {
    if cs != [] && !AvailabilityHolder(cs[|cs| - 1]) {
      AvailabilityPassValues(cs[..|cs| - 1], current);
    }
  }

  /**
   * When no stock candidate gives a usable value, the stock is one of the
   * two sentinels "10" and "0".
   */
  lemma StockFallbackIsSentinel(item: Element)
    requires !Truthy(Locate(item, StockNames))
    ensures ResolveStock(item) == InStockText || ResolveStock(item) == ZeroText
  {
    AvailabilityPassValues(item.children, Locate(item, StockNames));
  }

  /** Outside Kaspi items, the price and stock are the located values or "0". */
  lemma PlainItemPriceAndStock(item: Element)
    requires !KaspiTagged(item)
    ensures ResolvePrice(item) == OrDefault(Locate(item, PriceNames), ZeroText)
    ensures ResolveStock(item) == OrDefault(Locate(item, StockNames), ZeroText)
  {
  }

  /** Stripping leaves the placeholder SKU and the default texts unchanged. */
  lemma DefaultsAreStripped(idx: nat)
    ensures Strip(Placeholder(idx)) == Placeholder(idx)
    ensures Strip(UnknownModel) == UnknownModel
    ensures Strip(ZeroText) == ZeroText
  {
    PlaceholderStripped(idx);
    UnknownModelStripped();
  }

  lemma UnknownModelStripped()
    ensures Strip(UnknownModel) == UnknownModel
  {
    var m := UnknownModel;
    assert !IsSpace(m[0]) && !IsSpace(m[|m| - 1]);
  }

  lemma PlaceholderStripped(idx: nat)
    ensures Strip(Placeholder(idx)) == Placeholder(idx)
  {
    var p := Placeholder(idx);
    assert p[0] == 'I';
    var d := NatToString(idx + 1);
    assert p[|p| - 1] == d[|d| - 1];
  }

  /**
   * An item with no children and no attributes gets every default: the
   * placeholder SKU, "Unknown Model", price "0" and stock "0".
   */
  lemma BareItemDefaults(item: Element, idx: nat)
    requires item.children == [] && item.attrib == map[]
    ensures Extract(item, idx) == ItemFields(Placeholder(idx), UnknownModel, ZeroText, ZeroText)
  {
    BareResolves(item, idx);
    DefaultsAreStripped(idx);
  }

  lemma BareResolves(item: Element, idx: nat)
    requires item.children == [] && item.attrib == map[]
    ensures ResolveSku(item, idx) == Placeholder(idx)
    ensures ResolveModel(item) == UnknownModel
    ensures ResolvePrice(item) == ZeroText
    ensures ResolveStock(item) == ZeroText
  {
    LocateNothing(item, SkuNames);
    LocateNothing(item, ModelNames);
    LocateNothing(item, PriceNames);
    LocateNothing(item, StockNames);
    PricesPassDecides(item.children, Locate(item, PriceNames));
  }
}
