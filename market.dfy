/**
 * The market estimator `extract_model_price_from_kaspi` (parser.py:17-217):
 * a simulated comparison of our price against two to four competing tyre
 * sellers, each priced by a random variation of our price rounded to 100
 * tenge, sorted from cheapest to dearest.
 *
 * The random choices arrive as parameters (`Draw`), and the month and the
 * timestamp as values.
 */
module Market {
  import opened Wrappers
  import opened Text
  import opened Normalize
  import opened History

  // ------------------------------------------------------------ sellers

  /** Our own shop, always in the comparison. */
  const Owner: string := "AIKOS"

  /** The tyre sellers: AIKOS, Шинный центр, Vianor, Колесо, ШинМаркет, Шинный двор, Эйкос, Express Шины. */
  const TireSellers: seq<string> := [
    Owner,
    "\U{0428}\U{0438}\U{043D}\U{043D}\U{044B}\U{0439} \U{0446}\U{0435}\U{043D}\U{0442}\U{0440}",
    "Vianor",
    "\U{041A}\U{043E}\U{043B}\U{0435}\U{0441}\U{043E}",
    "\U{0428}\U{0438}\U{043D}\U{041C}\U{0430}\U{0440}\U{043A}\U{0435}\U{0442}",
    "\U{0428}\U{0438}\U{043D}\U{043D}\U{044B}\U{0439} \U{0434}\U{0432}\U{043E}\U{0440}",
    "\U{042D}\U{0439}\U{043A}\U{043E}\U{0441}",
    "Express \U{0428}\U{0438}\U{043D}\U{044B}"
  ]

  /** `[s for s in ss if s != x]`. */
  function Without(ss: seq<string>, x: string): (r: seq<string>)
    ensures forall s :: s in r <==> s in ss && s != x
    ensures |r| <= |ss|
  {
    if ss == [] then []
    else (if ss[0] == x then [] else [ss[0]]) + Without(ss[1..], x)
  }

  /** The sellers a competitor is drawn from: every tyre seller but ours. */
  const OtherSellers: seq<string> := TireSellers[1..]

  /** `[s for s in tire_sellers if s != "AIKOS"]` is the list of the other sellers, none of them ours. */
  lemma OtherSellersFiltered()
    ensures Without(TireSellers, Owner) == OtherSellers
    ensures |OtherSellers| == SellerCount
    ensures Owner !in OtherSellers
  {
    var rest := TireSellers[1..];
    assert forall i :: 0 <= i < |rest| ==> |rest[i]| > 0 && rest[i][0] != 'A';
    WithoutAbsent(rest, Owner);
  }

  lemma {:induction false} WithoutAbsent(ss: seq<string>, x: string)
    requires |x| > 0 && forall i :: 0 <= i < |ss| ==> |ss[i]| > 0 && ss[i][0] != x[0]
    ensures Without(ss, x) == ss
  {
    if ss != [] {
      assert forall i :: 0 <= i < |ss| - 1 ==> ss[1..][i] == ss[i + 1];
      WithoutAbsent(ss[1..], x);
    }
  }

  const SellerCount: nat := 7

  // -------------------------------------------------------------- draws

  /**
   * The random choices of one round of the competitor loop: `random.choice`
   * as an index into the other sellers, and the fraction `u` in [0, 1] that
   * `random.uniform` scales into its range.
   */
  datatype Draw = Draw(seller: nat, u: real)

  predicate DrawsInRange(ds: seq<Draw>) {
    forall d :: d in ds ==> d.seller < SellerCount && 0.0 <= d.u <= 1.0
  }

  /** `random.randint(2, 4)` rounds. */
  predicate ValidDraws(ds: seq<Draw>) {
    2 <= |ds| <= 4 && DrawsInRange(ds)
  }

  /** The draws of one estimate: two to four rounds, each in range. */
  type Rounds = ds: seq<Draw> | ValidDraws(ds) witness [Draw(0, 0.0), Draw(0, 0.0)]

  // ---------------------------------------------------------- variation

  /** March, April, September and October: the tyre-change seasons. */
  predicate IsSeasonChange(month: int) {
    month == 3 || month == 4 || month == 9 || month == 10
  }

  /**
   * The price variation: uniform in [0.90, 1.08] in a season change and in
   * [0.85, 1.05] otherwise; for premium brands pulled a tenth of the way
   * towards 1.
   */
  function Variation(month: int, premium: bool, u: real): (v: real)
    requires 0.0 <= u <= 1.0
    ensures 0.85 <= v <= 1.08
    ensures IsSeasonChange(month) && !premium ==> 0.90 <= v <= 1.08
    ensures !IsSeasonChange(month) && !premium ==> v <= 1.05
    ensures premium && IsSeasonChange(month) ==> 0.91 <= v <= 1.072
    ensures premium && !IsSeasonChange(month) ==> 0.865 <= v <= 1.045
  {
    var base := if IsSeasonChange(month) then 0.90 + (1.08 - 0.90) * u else 0.85 + (1.05 - 0.85) * u;
    if premium then base * 0.9 + 0.1 else base
  }

  /** For a premium brand the variation is pulled a tenth of the way towards 1. */
  lemma PremiumPull(month: int, u: real)
    requires 0.0 <= u <= 1.0
    ensures Variation(month, true, u) == Variation(month, false, u) * 0.9 + 0.1
    ensures 1.0 - Variation(month, true, u) == (1.0 - Variation(month, false, u)) * 0.9
  {
  }

  // ------------------------------------------------------------- brands

  /** The keywords that make a model a tyre or a wheel: r1, r2, шина, шины, колеса, диск, brands, "/", r13 to r22. */
  const TireKeywords: seq<string> := [
    "r1", "r2", "\U{0448}\U{0438}\U{043D}\U{0430}", "\U{0448}\U{0438}\U{043D}\U{044B}",
    "\U{043A}\U{043E}\U{043B}\U{0435}\U{0441}\U{0430}", "\U{0434}\U{0438}\U{0441}\U{043A}",
    "michelin", "pirelli", "continental", "nokian", "goodyear", "yokohama", "/",
    "r13", "r14", "r15", "r16", "r17", "r18", "r19", "r20", "r21", "r22"
  ]

  const Brands: seq<string> := [
    "Michelin", "Pirelli", "Continental", "Nokian", "Goodyear", "Yokohama",
    "Bridgestone", "Dunlop", "Hankook", "Toyo", "Cordiant"
  ]

  /** `any(k in s for k in ks)`, scanning the keywords in order. */
  predicate AnyOccurs(s: string, ks: seq<string>) {
    ks != [] && (Contains(s, ks[0]) || AnyOccurs(s, ks[1..]))
  }

  /** The scan succeeds exactly when some keyword occurs in `s`. */
  lemma {:induction false} AnyOccursIff(s: string, ks: seq<string>)
    ensures AnyOccurs(s, ks) <==> exists i :: 0 <= i < |ks| && Contains(s, ks[i])
  {
    if ks != [] {
      AnyOccursIff(s, ks[1..]);
      if exists i :: 0 <= i < |ks| && Contains(s, ks[i]) {
        var i :| 0 <= i < |ks| && Contains(s, ks[i]);
        if i > 0 {
          assert ks[1..][i - 1] == ks[i];
        }
      }
      if AnyOccurs(s, ks[1..]) {
        var i :| 0 <= i < |ks[1..]| && Contains(s, ks[1..][i]);
        assert ks[i + 1] == ks[1..][i];
      }
    }
  }

  predicate IsTire(model: string) {
    AnyOccurs(Lower(model), TireKeywords)
  }

  /** The first brand, in list order, whose lower-cased name occurs in `s`. */
  function FirstBrand(s: string, bs: seq<string>): (r: Option<string>)
    ensures r.Some? ==> r.value in bs && Contains(s, Lower(r.value))
    ensures r.None? ==> forall b :: b in bs ==> !Contains(s, Lower(b))
  {
    if bs == [] then None
    else if Contains(s, Lower(bs[0])) then Some(bs[0])
    else FirstBrand(s, bs[1..])
  }

  /** The detected brand: only tyres get one. */
  function DetectBrand(model: string): Option<string> {
    if IsTire(model) then FirstBrand(Lower(model), Brands) else None
  }

  predicate Premium(model: string) {
    var b := DetectBrand(model);
    b == Some("Michelin") || b == Some("Pirelli") || b == Some("Continental")
  }

  lemma PremiumLowerNames()
    ensures Lower("Michelin") == "michelin"
    ensures Lower("Pirelli") == "pirelli"
    ensures Lower("Continental") == "continental"
  {
    var m := Lower("Michelin");
    assert m[0] == 'm';
    var p := Lower("Pirelli");
    assert p[0] == 'p';
    var c := Lower("Continental");
    assert c[0] == 'c';
  }

  /**
   * A model is priced as premium exactly when its lower-cased name mentions
   * Michelin, Pirelli or Continental: those names make it a tyre, and they
   * head the brand list, so no other brand can be detected first.
   */
  lemma PremiumIff(model: string)
    ensures Premium(model) <==> PremiumName(Lower(model))
  {
    PremiumLowerNames();
    if PremiumName(Lower(model)) {
      PremiumNameMakesTire(model);
      PremiumNameBrand(Lower(model), Brands);
    }
  }

  predicate PremiumName(s: string) {
    Contains(s, "michelin") || Contains(s, "pirelli") || Contains(s, "continental")
  }

  lemma PremiumNameMakesTire(model: string)
    requires PremiumName(Lower(model))
    ensures IsTire(model)
  {
    var ks := TireKeywords;
    assert ks[6] == "michelin" && ks[7] == "pirelli" && ks[8] == "continental";
    AnyOccursIff(Lower(model), ks);
  }

  lemma PremiumNameBrand(s: string, bs: seq<string>)
    requires bs == Brands
    requires PremiumName(s)
    ensures var b := FirstBrand(s, bs); b == Some("Michelin") || b == Some("Pirelli") || b == Some("Continental")
  {
    PremiumLowerNames();
    assert bs[0] == "Michelin";
    var bs1 := bs[1..];
    assert bs1[0] == "Pirelli";
    var bs2 := bs1[1..];
    assert bs2[0] == "Continental";
    if Contains(s, "michelin") {
      assert FirstBrand(s, bs) == Some("Michelin");
    } else if Contains(s, "pirelli") {
      assert FirstBrand(s, bs) == FirstBrand(s, bs1) == Some("Pirelli");
    } else {
      assert FirstBrand(s, bs) == FirstBrand(s, bs1) == FirstBrand(s, bs2) == Some("Continental");
    }
  }

  // ----------------------------------------------------------- rounding

  /** Python's `int()` on a float: truncation toward zero. */
  function TruncToInt(x: real): (r: int)
    ensures 0.0 <= x ==> r as real <= x < r as real + 1.0
    ensures x < 0.0 ==> r as real - 1.0 < x <= r as real
  {
    if x >= 0.0 then x.Floor else -((-x).Floor)
  }

  /** Python's `round(n, -2)` on an int: to the nearest hundred, ties to the even hundred. */
  function RoundHundreds(n: int): (r: int)
    ensures r % 100 == 0
    ensures -50 <= r - n <= 50
    ensures (r - n == 50 || r - n == -50) ==> (r / 100) % 2 == 0
  {
    var q := n / 100;
    var rem := n % 100;
    if 2 * rem > 100 || (2 * rem == 100 && q % 2 == 1) then (q + 1) * 100 else q * 100
  }

  /** The rounding hits each hundred from the left and the right as the ties rule says. */
  lemma RoundHundredsUnique(n: int, m: int)
    requires m % 100 == 0 && -50 <= m - n <= 50
    requires (m - n == 50 || m - n == -50) ==> (m / 100) % 2 == 0
    ensures RoundHundreds(n) == m
  {
  }

  /** `round(int(our_price * variation), -2)`. */
  function CompetitorPrice(our: real, v: real): real {
    RoundHundreds(TruncToInt(our * v)) as real
  }

  /** For a non-negative price, a competitor's price stays within the variation band, up to rounding. */
  lemma CompetitorPriceBounds(our: real, v: real)
    requires 0.0 <= our && 0.85 <= v <= 1.08
    ensures 0.85 * our - 51.0 <= CompetitorPrice(our, v) <= 1.08 * our + 50.0
  {
    var x := our * v;
    MulMono(our, 0.85, v);
    MulMono(our, v, 1.08);
    assert our * 0.85 <= x <= our * 1.08;
    MulNonneg(our, v);
    var t := TruncToInt(x);
    var r := RoundHundreds(t);
    assert x - 1.0 < t as real <= x;
    assert t as real - 50.0 <= r as real <= t as real + 50.0;
  }

  // -------------------------------------------------------- competitors

  /** A seller in the comparison and its price. */
  datatype Competitor = Competitor(name: string, price: real)

  function Names(cs: seq<Competitor>): (r: seq<string>)
    ensures |r| == |cs|
    ensures forall i :: 0 <= i < |cs| ==> r[i] == cs[i].name
  {
    seq(|cs|, i requires 0 <= i < |cs| => cs[i].name)
  }

  /** The seller a round draws. */
  function DrawnSeller(d: Draw): string
    requires d.seller < SellerCount
  {
    OtherSellers[d.seller]
  }

  /** The price a round gives its seller. */
  function DrawnPrice(our: real, month: int, premium: bool, d: Draw): real
    requires 0.0 <= d.u <= 1.0
  {
    CompetitorPrice(our, Variation(month, premium, d.u))
  }

  /**
   * The competitor list after the given rounds: our shop at our price, then
   * each round's seller unless it is already listed.
   */
  function Competitors(our: real, month: int, premium: bool, ds: seq<Draw>): (cs: seq<Competitor>)
    requires DrawsInRange(ds)
    ensures 1 <= |cs| <= 1 + |ds|
    ensures cs[0] == Competitor(Owner, our)
    decreases |ds|
  {
    if ds == [] then [Competitor(Owner, our)]
    else
      var init := ds[..|ds| - 1];
      assert forall d :: d in init ==> d in ds;
      var prev := Competitors(our, month, premium, init);
      var d := ds[|ds| - 1];
      if DrawnSeller(d) in Names(prev) then prev
      else prev + [Competitor(DrawnSeller(d), DrawnPrice(our, month, premium, d))]
  }

  /** Round `j` is the first to draw its seller. */
  predicate FirstDrawOfSeller(ds: seq<Draw>, j: nat)
    requires DrawsInRange(ds) && j < |ds|
  {
    forall k :: 0 <= k < j ==> DrawnSeller(ds[k]) != DrawnSeller(ds[j])
  }

  /** A competitor as the first round drawing its seller priced it. */
  predicate FromFirstDraw(our: real, month: int, premium: bool, ds: seq<Draw>, c: Competitor)
    requires DrawsInRange(ds)
  {
    exists j :: 0 <= j < |ds| && FirstDrawOfSeller(ds, j) && c == Competitor(DrawnSeller(ds[j]), DrawnPrice(our, month, premium, ds[j]))
  }

  lemma NamesAppend(cs: seq<Competitor>, c: Competitor)
    ensures Names(cs + [c]) == Names(cs) + [c.name]
  {
  }

  /** The last round either adds its seller at the end or leaves the list alone. */
  lemma CompetitorsStep(our: real, month: int, premium: bool, ds: seq<Draw>)
    requires DrawsInRange(ds) && ds != []
    ensures DrawsInRange(ds[..|ds| - 1])
    ensures var prev := Competitors(our, month, premium, ds[..|ds| - 1]);
      var name := DrawnSeller(ds[|ds| - 1]);
      Competitors(our, month, premium, ds) ==
        if name in Names(prev) then prev
        else prev + [Competitor(name, DrawnPrice(our, month, premium, ds[|ds| - 1]))]
  {
    assert forall d :: d in ds[..|ds| - 1] ==> d in ds;
  }

  /** The last round's seller is listed afterwards, and so is every seller listed before. */
  lemma CompetitorsStepNames(our: real, month: int, premium: bool, ds: seq<Draw>)
    requires DrawsInRange(ds) && ds != []
    ensures DrawsInRange(ds[..|ds| - 1])
    ensures DrawnSeller(ds[|ds| - 1]) in Names(Competitors(our, month, premium, ds))
    ensures forall x :: x in Names(Competitors(our, month, premium, ds[..|ds| - 1])) ==> x in Names(Competitors(our, month, premium, ds))
  {
    var n := |ds| - 1;
    CompetitorsStep(our, month, premium, ds);
    var prev := Competitors(our, month, premium, ds[..n]);
    var name := DrawnSeller(ds[n]);
    if name !in Names(prev) {
      NamesAppend(prev, Competitor(name, DrawnPrice(our, month, premium, ds[n])));
    }
  }

  /** Every drawn seller is listed. */
  lemma {:induction false} DrawnSellersListed(our: real, month: int, premium: bool, ds: seq<Draw>)
    requires DrawsInRange(ds)
    ensures forall j :: 0 <= j < |ds| ==> DrawnSeller(ds[j]) in Names(Competitors(our, month, premium, ds))
    decreases |ds|
  {
    if ds != [] {
      var n := |ds| - 1;
      var init := ds[..n];
      CompetitorsStepNames(our, month, premium, ds);
      DrawnSellersListed(our, month, premium, init);
      forall j | 0 <= j < n ensures DrawnSeller(ds[j]) in Names(Competitors(our, month, premium, ds)) {
        assert ds[j] == init[j];
      }
    }
  }

  /** No seller is listed twice. */
  lemma {:induction false} CompetitorNamesDistinct(our: real, month: int, premium: bool, ds: seq<Draw>)
    requires DrawsInRange(ds)
    ensures Distinct(Names(Competitors(our, month, premium, ds)))
    decreases |ds|
  {
    if ds != [] {
      var n := |ds| - 1;
      var init := ds[..n];
      CompetitorsStep(our, month, premium, ds);
      CompetitorNamesDistinct(our, month, premium, init);
      var prev := Competitors(our, month, premium, init);
      var name := DrawnSeller(ds[n]);
      if name !in Names(prev) {
        NamesAppend(prev, Competitor(name, DrawnPrice(our, month, premium, ds[n])));
      }
    }
  }

  /** A first draw among the earlier rounds stays a first draw once another round is drawn. */
  lemma FirstDrawExtends(our: real, month: int, premium: bool, ds: seq<Draw>, c: Competitor)
    requires DrawsInRange(ds) && ds != []
    requires DrawsInRange(ds[..|ds| - 1]) && FromFirstDraw(our, month, premium, ds[..|ds| - 1], c)
    ensures FromFirstDraw(our, month, premium, ds, c)
  {
    var init := ds[..|ds| - 1];
    var j :| 0 <= j < |init| && FirstDrawOfSeller(init, j)
      && c == Competitor(DrawnSeller(init[j]), DrawnPrice(our, month, premium, init[j]));
    assert ds[j] == init[j];
    assert forall k :: 0 <= k < j ==> ds[k] == init[k];
    assert FirstDrawOfSeller(ds, j);
  }

  /** The last round is a first draw when its seller is not listed yet. */
  lemma LastDrawIsFirst(our: real, month: int, premium: bool, ds: seq<Draw>)
    requires DrawsInRange(ds) && ds != []
    requires DrawsInRange(ds[..|ds| - 1])
    requires DrawnSeller(ds[|ds| - 1]) !in Names(Competitors(our, month, premium, ds[..|ds| - 1]))
    ensures FromFirstDraw(our, month, premium, ds, Competitor(DrawnSeller(ds[|ds| - 1]), DrawnPrice(our, month, premium, ds[|ds| - 1])))
  {
    var n := |ds| - 1;
    var init := ds[..n];
    DrawnSellersListed(our, month, premium, init);
    forall k | 0 <= k < n ensures DrawnSeller(ds[k]) != DrawnSeller(ds[n]) {
      assert ds[k] == init[k];
    }
    assert FirstDrawOfSeller(ds, n);
  }

  /**
   * After our shop, every competitor is a drawn seller priced by the first
   * round that drew it: a later round drawing a listed seller is discarded.
   */
  lemma {:induction false} CompetitorsFromFirstDraws(our: real, month: int, premium: bool, ds: seq<Draw>)
    requires DrawsInRange(ds)
    ensures var cs := Competitors(our, month, premium, ds);
      forall i :: 1 <= i < |cs| ==> FromFirstDraw(our, month, premium, ds, cs[i])
    decreases |ds|
  {
    if ds != [] {
      var n := |ds| - 1;
      var init := ds[..n];
      CompetitorsStep(our, month, premium, ds);
      CompetitorsFromFirstDraws(our, month, premium, init);
      var prev := Competitors(our, month, premium, init);
      var cs := Competitors(our, month, premium, ds);
      forall i | 1 <= i < |prev| ensures FromFirstDraw(our, month, premium, ds, prev[i]) {
        FirstDrawExtends(our, month, premium, ds, prev[i]);
      }
      if DrawnSeller(ds[n]) !in Names(prev) {
        LastDrawIsFirst(our, month, premium, ds);
      }
    }
  }

  /** A price that is a whole number of hundreds. */
  predicate WholeHundreds(p: real) {
    p == p.Floor as real && p.Floor % 100 == 0
  }

  /** A round's price is rounded to a whole number of hundreds. */
  lemma DrawnPriceRounded(our: real, month: int, premium: bool, d: Draw)
    requires 0.0 <= d.u <= 1.0
    ensures WholeHundreds(DrawnPrice(our, month, premium, d))
  {
    var n := RoundHundreds(TruncToInt(our * Variation(month, premium, d.u)));
    assert DrawnPrice(our, month, premium, d) == n as real;
    assert (n as real).Floor == n;
  }

  /** Every rival's price is a whole number of hundreds: only our own price, first, is not rounded. */
  lemma {:induction false} RivalPricesRounded(our: real, month: int, premium: bool, ds: seq<Draw>)
    requires DrawsInRange(ds)
    ensures var cs := Competitors(our, month, premium, ds);
      forall i :: 1 <= i < |cs| ==> WholeHundreds(cs[i].price)
    decreases |ds|
  {
    if ds != [] {
      var n := |ds| - 1;
      CompetitorsStep(our, month, premium, ds);
      RivalPricesRounded(our, month, premium, ds[..n]);
      DrawnPriceRounded(our, month, premium, ds[n]);
    }
  }

  /** The first round's seller is always added, so there are at least two sellers once a round is drawn. */
  lemma AtLeastOneCompetitor(our: real, month: int, premium: bool, ds: seq<Draw>)
    requires DrawsInRange(ds) && ds != []
    ensures |Competitors(our, month, premium, ds)| >= 2
  {
    DrawnSellersListed(our, month, premium, ds);
    OtherSellersFiltered();
    var cs := Competitors(our, month, premium, ds);
    assert DrawnSeller(ds[0]) in Names(cs);
    assert DrawnSeller(ds[0]) != Owner;
  }

  /** The competitor loop. */
  method BuildCompetitors(our: real, month: int, premium: bool, ds: seq<Draw>) returns (cs: seq<Competitor>)
    requires DrawsInRange(ds)
    ensures cs == Competitors(our, month, premium, ds)
  {
    cs := [Competitor(Owner, our)];
    for i := 0 to |ds|
      invariant cs == Competitors(our, month, premium, ds[..i])
    {
      assert ds[..i + 1][..i] == ds[..i];
      assert forall d :: d in ds[..i + 1] ==> d in ds;
      var name := OtherSellers[ds[i].seller];
      var variation := Variation(month, premium, ds[i].u);
      var price := CompetitorPrice(our, variation);
      assert ds[..i + 1][i] == ds[i];
      if name !in Names(cs) {
        cs := cs + [Competitor(name, price)];
      }
    }
    assert ds[..|ds|] == ds;
  }

  // ------------------------------------------------------------ sorting

  predicate SortedByPrice(cs: seq<Competitor>) {
    forall i, j :: 0 <= i < j < |cs| ==> cs[i].price <= cs[j].price
  }

  /** Insert after every competitor priced at most as much. */
  function InsertByPrice(c: Competitor, cs: seq<Competitor>): (r: seq<Competitor>)
    ensures |r| == |cs| + 1
  {
    if cs == [] then [c]
    else if cs[0].price <= c.price then [cs[0]] + InsertByPrice(c, cs[1..])
    else [c] + cs
  }

  /** `competitors.sort(key=price)`, as an insertion sort. */
  function SortByPrice(cs: seq<Competitor>): (r: seq<Competitor>)
    ensures |r| == |cs|
  {
    if cs == [] then []
    else InsertByPrice(cs[|cs| - 1], SortByPrice(cs[..|cs| - 1]))
  }

  lemma {:induction false} InsertPermutes(c: Competitor, cs: seq<Competitor>)
    ensures multiset(InsertByPrice(c, cs)) == multiset(cs) + multiset{c}
  {
    if cs != [] && cs[0].price <= c.price {
      assert cs == [cs[0]] + cs[1..];
      InsertPermutes(c, cs[1..]);
    }
  }

  /** The sort is a permutation. */
  lemma {:induction false} SortByPricePermutes(cs: seq<Competitor>)
    ensures multiset(SortByPrice(cs)) == multiset(cs)
  {
    if cs != [] {
      assert cs == cs[..|cs| - 1] + [cs[|cs| - 1]];
      SortByPricePermutes(cs[..|cs| - 1]);
      InsertPermutes(cs[|cs| - 1], SortByPrice(cs[..|cs| - 1]));
    }
  }

  lemma {:induction false} InsertKeepsSorted(c: Competitor, cs: seq<Competitor>)
    requires SortedByPrice(cs)
    ensures SortedByPrice(InsertByPrice(c, cs))
  {
    if cs != [] && cs[0].price <= c.price {
      var rest := cs[1..];
      InsertKeepsSorted(c, rest);
      InsertPermutes(c, rest);
      var r := InsertByPrice(c, rest);
      forall x | x in r ensures cs[0].price <= x.price {
        assert x in multiset(r);
        if x != c {
          assert x in multiset(rest);
        }
      }
    }
  }

  lemma {:induction false} SortByPriceSorted(cs: seq<Competitor>)
    ensures SortedByPrice(SortByPrice(cs))
  {
    if cs != [] {
      SortByPriceSorted(cs[..|cs| - 1]);
      InsertKeepsSorted(cs[|cs| - 1], SortByPrice(cs[..|cs| - 1]));
    }
  }

  /** The competitors priced exactly `p`, in list order. */
  function PricedAt(cs: seq<Competitor>, p: real): seq<Competitor> {
    if cs == [] then []
    else (if cs[0].price == p then [cs[0]] else []) + PricedAt(cs[1..], p)
  }

  lemma {:induction false} PricedAtAppend(a: seq<Competitor>, b: seq<Competitor>, p: real)
    ensures PricedAt(a + b, p) == PricedAt(a, p) + PricedAt(b, p)
  {
    if a == [] {
      assert a + b == b;
    } else {
      assert a == [a[0]] + a[1..];
      assert a + b == [a[0]] + (a[1..] + b);
      PricedAtCons(a[0], a[1..] + b, p);
      PricedAtCons(a[0], a[1..], p);
      PricedAtAppend(a[1..], b, p);
    }
  }

  lemma {:induction false} PricedAtNone(cs: seq<Competitor>, p: real)
    requires forall i :: 0 <= i < |cs| ==> cs[i].price != p
    ensures PricedAt(cs, p) == []
  {
    if cs != [] {
      PricedAtNone(cs[1..], p);
    }
  }

  lemma PricedAtCons(x: Competitor, cs: seq<Competitor>, p: real)
    ensures PricedAt([x] + cs, p) == (if x.price == p then [x] else []) + PricedAt(cs, p)
  {
    assert ([x] + cs)[0] == x && ([x] + cs)[1..] == cs;
  }

  lemma {:induction false} InsertStable(c: Competitor, cs: seq<Competitor>, p: real)
    requires SortedByPrice(cs)
    ensures PricedAt(InsertByPrice(c, cs), p) == PricedAt(cs, p) + (if c.price == p then [c] else [])
  {
    var tail := if c.price == p then [c] else [];
    if cs == [] {
      assert InsertByPrice(c, cs) == [c];
      PricedAtCons(c, [], p);
    } else if cs[0].price <= c.price {
      var rest := cs[1..];
      assert SortedByPrice(rest);
      InsertStable(c, rest, p);
      assert cs == [cs[0]] + rest;
      InsertStableCons(c, cs[0], rest, p);
    } else {
      if c.price == p {
        PricedAtNone(cs, p);
      }
      PricedAtCons(c, cs, p);
    }
  }

  /** Stability survives putting a competitor priced at most as much as `c` in front. */
  lemma InsertStableCons(c: Competitor, x: Competitor, rest: seq<Competitor>, p: real)
    requires x.price <= c.price
    requires PricedAt(InsertByPrice(c, rest), p) == PricedAt(rest, p) + (if c.price == p then [c] else [])
    ensures PricedAt(InsertByPrice(c, [x] + rest), p) == PricedAt([x] + rest, p) + (if c.price == p then [c] else [])
  {
    var ins := InsertByPrice(c, rest);
    var head := if x.price == p then [x] else [];
    var tail := if c.price == p then [c] else [];
    assert ([x] + rest)[0] == x && ([x] + rest)[1..] == rest;
    assert InsertByPrice(c, [x] + rest) == [x] + ins;
    PricedAtCons(x, ins, p);
    PricedAtCons(x, rest, p);
    ConcatAssoc(head, PricedAt(rest, p), tail);
  }

  /**
   * The sort is stable: the competitors at any one price keep their order,
   * so our shop, listed first, stays ahead of competitors at the same price.
   */
  lemma {:induction false} SortByPriceStable(cs: seq<Competitor>, p: real)
    ensures PricedAt(SortByPrice(cs), p) == PricedAt(cs, p)
  {
    if cs != [] {
      var init := cs[..|cs| - 1];
      var last := cs[|cs| - 1];
      SortByPriceSorted(init);
      SortByPriceStable(init, p);
      InsertStable(last, SortByPrice(init), p);
      assert SortByPrice(cs) == InsertByPrice(last, SortByPrice(init));
      assert cs == init + [last];
      PricedAtAppend(init, [last], p);
      assert [last] + [] == [last];
      PricedAtCons(last, [], p);
    }
  }

  lemma NamesCons(x: Competitor, cs: seq<Competitor>)
    ensures Names([x] + cs) == [x.name] + Names(cs)
  {
  }

  lemma {:induction false} InsertKeepsDistinctNames(c: Competitor, cs: seq<Competitor>)
    requires Distinct(Names(cs)) && c.name !in Names(cs)
    ensures Distinct(Names(InsertByPrice(c, cs)))
    ensures forall x :: x in Names(InsertByPrice(c, cs)) <==> x == c.name || x in Names(cs)
  {
    if cs == [] {
      assert InsertByPrice(c, cs) == [c] + cs;
      NamesCons(c, cs);
    } else if cs[0].price <= c.price {
      var rest := cs[1..];
      assert cs == [cs[0]] + rest;
      NamesCons(cs[0], rest);
      assert Names(cs)[0] == cs[0].name && Names(cs)[1..] == Names(rest);
      assert Distinct(Names(rest)) && cs[0].name !in Names(rest) && c.name !in Names(rest);
      InsertKeepsDistinctNames(c, rest);
      NamesCons(cs[0], InsertByPrice(c, rest));
      assert cs[0].name !in Names(InsertByPrice(c, rest));
    } else {
      NamesCons(c, cs);
    }
  }

  /** The sort keeps the seller names, and keeps them distinct. */
  lemma {:induction false} SortKeepsDistinctNames(cs: seq<Competitor>)
    requires Distinct(Names(cs))
    ensures Distinct(Names(SortByPrice(cs)))
    ensures forall x :: x in Names(SortByPrice(cs)) <==> x in Names(cs)
  {
    if cs != [] {
      var init := cs[..|cs| - 1];
      var last := cs[|cs| - 1];
      assert cs == init + [last];
      NamesAppend(init, last);
      SortKeepsDistinctNames(init);
      InsertKeepsDistinctNames(last, SortByPrice(init));
    }
  }

  /** The head of the sorted list is a cheapest competitor. */
  lemma HeadIsCheapest(cs: seq<Competitor>)
    requires cs != []
    ensures SortByPrice(cs)[0] in cs
    ensures forall c :: c in cs ==> SortByPrice(cs)[0].price <= c.price
  {
    var r := SortByPrice(cs);
    SortByPriceSorted(cs);
    SortByPricePermutes(cs);
    assert r[0] in multiset(r);
    forall c | c in cs ensures r[0].price <= c.price {
      assert c in multiset(cs);
      assert c in r;
    }
  }

  // ------------------------------------------------------------ details

  /** One row of `price_details`. */
  datatype PriceDetail = PriceDetail(seller: string, price: real, diffPercent: real)

  /** The difference from our price in percent of it; 0 when our price is not positive. */
  function PercentDiff(p: real, our: real): (r: real)
    ensures our > 0.0 ==> (r < 0.0 <==> p < our) && (r == 0.0 <==> p == our)
    ensures our <= 0.0 ==> r == 0.0
  {
    if our > 0.0 then (p - our) / our * 100.0 else 0.0
  }

  /** For a positive price, the difference grows with the competitor's price. */
  lemma PercentDiffMonotone(p: real, q: real, our: real)
    requires our > 0.0 && p <= q
    ensures PercentDiff(p, our) <= PercentDiff(q, our)
  {
    var a := (p - our) / our;
    var b := (q - our) / our;
    assert a * our == p - our && b * our == q - our;
    if a > b {
      MulMono(our, b, a);
    }
  }

  function Detail(c: Competitor, our: real): PriceDetail {
    PriceDetail(c.name, c.price, PercentDiff(c.price, our))
  }

  function Details(cs: seq<Competitor>, our: real): (r: seq<PriceDetail>)
    ensures |r| == |cs|
  {
    seq(|cs|, i requires 0 <= i < |cs| => Detail(cs[i], our))
  }

  /** The loop building `price_details`. */
  method BuildPriceDetails(cs: seq<Competitor>, our: real) returns (ds: seq<PriceDetail>)
    ensures ds == Details(cs, our)
  {
    ds := [];
    for i := 0 to |cs|
      invariant ds == Details(cs[..i], our)
    {
      var diff := if our > 0.0 then (cs[i].price - our) / our * 100.0 else 0.0;
      ds := ds + [PriceDetail(cs[i].name, cs[i].price, diff)];
    }
    assert cs[..|cs|] == cs;
  }

  /** On a sorted list and a positive price, the percentages never decrease down the list. */
  lemma DetailsOrdered(cs: seq<Competitor>, our: real)
    requires SortedByPrice(cs) && our > 0.0
    ensures forall i, j :: 0 <= i < j < |cs| ==> Details(cs, our)[i].diffPercent <= Details(cs, our)[j].diffPercent
  {
    forall i, j | 0 <= i < j < |cs| ensures Details(cs, our)[i].diffPercent <= Details(cs, our)[j].diffPercent {
      PercentDiffMonotone(cs[i].price, cs[j].price, our);
    }
  }

  // ----------------------------------------------------------- snapshot

  /**
   * One estimate as the estimator returns it: the name searched, the
   * headline price, the sellers cheapest first, the per-seller details (none
   * on the fallback), the search text of the Kaspi link (the model, before
   * URL quoting) and a difference percentage (set only by the fallback).
   */
  datatype Snapshot = Snapshot(
    kaspiName: string,
    kaspiPrice: real,
    sellers: seq<string>,
    details: Option<seq<PriceDetail>>,
    searchText: string,
    percent: Option<real>)

  /** The estimate for a model at our price, given the month and the random draws. */
  function MarketSnapshot(model: string, our: real, month: int, ds: seq<Draw>): Snapshot
    requires ValidDraws(ds)
  {
    var ranked := SortByPrice(Competitors(our, month, Premium(model), ds));
    Snapshot(model, ranked[0].price, Names(ranked), Some(Details(ranked, our)), model, None)
  }

  /** The estimate when the cache cannot be used: our own price, our shop only, no difference. */
  function Fallback(model: string, our: real): Snapshot {
    Snapshot(model, our, [Owner], None, model, Some(0.0))
  }

  /** The cache entry an estimate leaves, under the model's normalized name. */
  function EntryFor(s: Snapshot, now: string): CacheEntry {
    CacheEntry(s.kaspiName, s.kaspiPrice, now, s.sellers)
  }

  /** The headline price is the cheapest competitor's, and never above our price. */
  lemma HeadlineIsCheapest(model: string, our: real, month: int, ds: seq<Draw>)
    requires ValidDraws(ds)
    ensures var p := MarketSnapshot(model, our, month, ds).kaspiPrice;
      var cs := Competitors(our, month, Premium(model), ds);
      p <= our && (exists c :: c in cs && c.price == p) && (forall c :: c in cs ==> p <= c.price)
  {
    var cs := Competitors(our, month, Premium(model), ds);
    HeadIsCheapest(cs);
    assert cs[0] in cs;
  }

  /**
   * The sellers are two to five distinct names, ours among them, and the
   * details follow the sellers one for one.
   */
  lemma SellersShape(model: string, our: real, month: int, ds: seq<Draw>)
    requires ValidDraws(ds)
    ensures var s := MarketSnapshot(model, our, month, ds);
      Owner in s.sellers
      && 2 <= |s.sellers| <= 5
      && Distinct(s.sellers)
      && s.details.Some? && |s.details.value| == |s.sellers|
      && (forall i :: 0 <= i < |s.sellers| ==> s.details.value[i].seller == s.sellers[i])
  {
    var premium := Premium(model);
    var cs := Competitors(our, month, premium, ds);
    AtLeastOneCompetitor(our, month, premium, ds);
    CompetitorNamesDistinct(our, month, premium, ds);
    SortKeepsDistinctNames(cs);
    assert Names(cs)[0] == Owner;
  }

  /** With a positive price, the headline seller's difference is never positive and ours is 0. */
  lemma HeadlineDifference(model: string, our: real, month: int, ds: seq<Draw>)
    requires ValidDraws(ds) && our > 0.0
    ensures var d := MarketSnapshot(model, our, month, ds).details.value;
      d[0].diffPercent <= 0.0
      && (forall x :: x in d && x.seller == Owner ==> x.diffPercent == 0.0)
  {
    CompetitorNamesDistinct(our, month, Premium(model), ds);
    RankedDifferences(Competitors(our, month, Premium(model), ds), our);
  }

  /** Ranking a list that starts with our shop at our price: the head's difference is never positive and ours is 0. */
  lemma RankedDifferences(cs: seq<Competitor>, our: real)
    requires cs != [] && cs[0] == Competitor(Owner, our) && Distinct(Names(cs)) && our > 0.0
    ensures var d := Details(SortByPrice(cs), our);
      d[0].diffPercent <= 0.0
      && (forall x :: x in d && x.seller == Owner ==> x.diffPercent == 0.0)
  {
    HeadIsCheapest(cs);
    assert cs[0] in cs;
    OwnerKeepsPrice(cs, our);
    var d := Details(SortByPrice(cs), our);
    forall x | x in d && x.seller == Owner ensures x.diffPercent == 0.0 {
      var i :| 0 <= i < |d| && d[i] == x;
    }
  }

  /** With distinct names and our shop first at our price, our shop keeps that price after sorting. */
  lemma OwnerKeepsPrice(cs: seq<Competitor>, our: real)
    requires cs != [] && cs[0] == Competitor(Owner, our) && Distinct(Names(cs))
    ensures forall i :: 0 <= i < |cs| && SortByPrice(cs)[i].name == Owner ==> SortByPrice(cs)[i].price == our
  {
    var ranked := SortByPrice(cs);
    SortByPricePermutes(cs);
    forall i | 0 <= i < |cs| && ranked[i].name == Owner ensures ranked[i].price == our {
      assert ranked[i] in multiset(cs);
      var k :| 0 <= k < |cs| && cs[k] == ranked[i];
      assert Names(cs)[k] == Owner == Names(cs)[0];
    }
  }

  /**
   * `extract_model_price_from_kaspi`: the fallback when the cache cannot be
   * read; otherwise the market estimate, recorded in the cache under the
   * model's normalized name.
   */
  method Estimate(model: string, our: real, month: int, ds: seq<Draw>, now: string, cache: EstimateCache) returns (s: Snapshot)
    requires ValidDraws(ds) && cache.Valid()
    modifies cache
    ensures cache.Valid()
    ensures !cache.usable ==> s == Fallback(model, our) && cache.memory == old(cache.memory) && cache.disk == old(cache.disk)
    ensures cache.usable ==> s == MarketSnapshot(model, our, month, ds)
    ensures cache.usable ==>
      var step := RecordStep(old(cache.memory), !old(cache.disk).Missing?, NormalizeName(model), EntryFor(s, now));
      cache.memory == step.memory && cache.disk == AfterWrite(old(cache.disk), step.written)
  {
    if !cache.usable {
      return Fallback(model, our);
    }
    var premium := Premium(model);
    var cs := BuildCompetitors(our, month, premium, ds);
    var ranked := SortByPrice(cs);
    var details := BuildPriceDetails(ranked, our);
    s := Snapshot(model, ranked[0].price, Names(ranked), Some(details), model, None);
    var flushed := cache.Record(NormalizeName(model), EntryFor(s, now));
  }

  lemma MulMono(a: real, x: real, y: real)
    requires a >= 0.0 && x <= y
    ensures a * x <= a * y
  {
    MulNonneg(a, y - x);
    assert a * (y - x) == a * y - a * x;
  }

  lemma MulNonneg(a: real, b: real)
    requires a >= 0.0 && b >= 0.0
    ensures a * b >= 0.0
  {
  }
}
