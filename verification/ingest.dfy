/**
 * The catalog ingestion script: each scraped item is normalised into a part
 * row (brand and model defaults, a derived SKU, a catalog category, a USD
 * price) and written to three tables. `parts` is upserted by SKU, `offers`
 * receives a synthetic offer for every priced item, and a single
 * `pcpartpicker` row is kept in `retailers`.
 *
 * The tables are modelled as values (a map from SKU to part row, a sequence
 * of offers, a sequence of retailers) with the `on conflict` behaviour of
 * the statements the script issues. The scraper's output is an input: a map
 * from the scraper's category key to the list of items it returned.
 */
module Ingest {
  import opened Base
  import opened Sku

  // ---------------------------------------------------------------------------
  // Categories

  /** The scraper category keys the script requests, in order. */
  const Supported: seq<string> :=
    ["cpu", "video-card", "motherboard", "memory", "internal-hard-drive", "power-supply"]

  /** Scraper category key to catalog category. */
  const CategoryMap: map<string, string> :=
    map["cpu" := "cpu", "video-card" := "gpu", "motherboard" := "motherboard",
        "memory" := "ram", "internal-hard-drive" := "storage", "power-supply" := "psu"]

  /** Scraper category key to the category page used as the placeholder URL. */
  const CategoryUrl: map<string, string> :=
    map["cpu" := "https://pcpartpicker.com/products/cpu/",
        "video-card" := "https://pcpartpicker.com/products/video-card/",
        "motherboard" := "https://pcpartpicker.com/products/motherboard/",
        "memory" := "https://pcpartpicker.com/products/memory/",
        "internal-hard-drive" := "https://pcpartpicker.com/products/internal-hard-drive/",
        "power-supply" := "https://pcpartpicker.com/products/power-supply/"]

  /** The catalog categories the ingestion can produce for a supported key. */
  const CatalogCategories: set<string> := {"cpu", "gpu", "motherboard", "ram", "storage", "psu"}

  /** `CATEGORY_MAP.get(key, 'unknown')`. */
  function CategoryOf(key: string): string
  {
    if key in CategoryMap then CategoryMap[key] else "unknown"
  }

  /** `PCPP_CATEGORY_URL.get(key)`. */
  function PlaceholderUrl(key: string): Option<string>
  {
    if key in CategoryUrl then Some(CategoryUrl[key]) else None
  }

  /** Every supported key has a catalog category, and distinct keys get distinct categories. */
  lemma SupportedKeysMapped()
    ensures forall k :: k in Supported ==> CategoryOf(k) in CatalogCategories
    ensures forall i, j :: 0 <= i < j < |Supported| ==> CategoryOf(Supported[i]) != CategoryOf(Supported[j])
  {
    var categories := ["cpu", "gpu", "motherboard", "ram", "storage", "psu"];
    forall i | 0 <= i < |Supported|
      ensures CategoryOf(Supported[i]) == categories[i]
    {
    }
  }

  /** A key outside the supported list gets category `unknown` and no URL. */
  lemma UnsupportedKeysUnknown(key: string)
    requires key !in Supported
    ensures CategoryOf(key) == "unknown" && PlaceholderUrl(key) == None
  {
    assert key !in CategoryMap && key !in CategoryUrl;
  }

  /** Every supported key's placeholder URL is the category page named after the key. */
  lemma SupportedKeysUrls()
    ensures forall i :: 0 <= i < |Supported| ==>
      PlaceholderUrl(Supported[i]) == Some("https://pcpartpicker.com/products/" + Supported[i] + "/")
  {
    var prefix := "https://pcpartpicker.com/products/";
    forall i | 0 <= i < |Supported|
      ensures PlaceholderUrl(Supported[i]) == Some(prefix + Supported[i] + "/")
    {
      var k := Supported[i];
      if i == 0 {
        assert CategoryUrl[k] == prefix + "cpu" + "/";
      } else if i == 1 {
        assert CategoryUrl[k] == prefix + "video-card" + "/";
      } else if i == 2 {
        assert CategoryUrl[k] == prefix + "motherboard" + "/";
      } else if i == 3 {
        assert CategoryUrl[k] == prefix + "memory" + "/";
      } else if i == 4 {
        assert CategoryUrl[k] == prefix + "internal-hard-drive" + "/";
      } else {
        assert CategoryUrl[k] == prefix + "power-supply" + "/";
      }
    }
  }

  // ---------------------------------------------------------------------------
  // Prices

  /** The `amount` of a money value: a number, or something `Decimal(str(...))` rejects. */
  datatype Amount = Numeric(value: real) | Unparseable

  /** A currency object; `code` is None when the object has no `code` attribute. */
  datatype Currency = Currency(code: Option<string>)

  /** A money object: `amount` is None when missing or `None`; `currency` is None when missing or falsy. */
  datatype Money = Money(amount: Option<Amount>, currency: Option<Currency>)

  /** The currency test: no (or a falsy) currency, a currency without a code, or code `USD`. */
  predicate AcceptsCurrency(currency: Option<Currency>)
  {
    currency.None? || currency.value.code.None? || currency.value.code.value == "USD"
  }

  /**
   * `price_to_usd`: the amount when there is one, it is numeric and the
   * currency is accepted; None otherwise (a missing price, a missing amount,
   * another currency, or the exception from an unparseable amount).
   */
  function PriceToUsd(price: Option<Money>): (r: Option<real>)
    ensures r.Some? <==>
      price.Some? && price.value.amount.Some? && price.value.amount.value.Numeric? &&
      AcceptsCurrency(price.value.currency)
    ensures r.Some? ==> r.value == price.value.amount.value.value
  {
    if price.None? || price.value.amount.None? then None
    else if !AcceptsCurrency(price.value.currency) then None
    else match price.value.amount.value
      case Numeric(v) => Some(v)
      case Unparseable => None
  }

  /** A currency with no `code` attribute counts as USD; any other code than `USD` is refused. */
  lemma CurrencyCodeRule(v: real, code: string)
    ensures PriceToUsd(Some(Money(Some(Numeric(v)), Some(Currency(None))))) == Some(v)
    ensures code != "USD" ==> PriceToUsd(Some(Money(Some(Numeric(v)), Some(Currency(Some(code)))))) == None
    ensures PriceToUsd(Some(Money(None, Some(Currency(Some("USD")))))) == None
  {
  }

  // ---------------------------------------------------------------------------
  // Items

  /** A scraped item; an absent or falsy attribute is None. */
  datatype Item = Item(brand: Option<string>, manufacturer: Option<string>, model: Option<string>, price: Option<Money>)

  /** Python truthiness of an optional string. */
  predicate Truthy(s: Option<string>)
  {
    s.Some? && s.value != ""
  }

  /** `item.brand or item.manufacturer or 'Unknown'`. */
  function BrandOf(item: Item): (r: string)
    ensures r != ""
    ensures r == "Unknown" || (Truthy(item.brand) && r == item.brand.value) || (Truthy(item.manufacturer) && r == item.manufacturer.value)
  {
    if Truthy(item.brand) then item.brand.value
    else if Truthy(item.manufacturer) then item.manufacturer.value
    else "Unknown"
  }

  /** `item.model or 'Unknown'`: never empty, so the script's skip branch is never taken. */
  function ModelOf(item: Item): (r: string)
    ensures r != ""
    ensures Truthy(item.model) ==> r == item.model.value
    ensures !Truthy(item.model) ==> r == "Unknown"
  {
    if Truthy(item.model) then item.model.value else "Unknown"
  }

  /** The brand fallback chain, one case per link. */
  lemma BrandFallback(item: Item)
    ensures Truthy(item.brand) ==> BrandOf(item) == item.brand.value
    ensures !Truthy(item.brand) && Truthy(item.manufacturer) ==> BrandOf(item) == item.manufacturer.value
    ensures !Truthy(item.brand) && !Truthy(item.manufacturer) ==> BrandOf(item) == "Unknown"
  {
  }

  function SkuOf(item: Item): string
  {
    DeriveSku(BrandOf(item), ModelOf(item))
  }

  /** `coalesce(price, '0')`: what the part row stores. */
  function StoredPrice(item: Item): real
  {
    match PriceToUsd(item.price)
    case Some(p) => p
    case None => 0.0
  }

  // ---------------------------------------------------------------------------
  // Tables

  datatype PartRow = PartRow(id: nat, sku: string, manufacturer: string, model: string,
                             category: string, priceUsd: real, canonicalUrl: Option<string>)

  datatype OfferRow = OfferRow(partId: nat, retailerId: nat, retailerSku: Option<string>,
                               url: Option<string>, priceUsd: real, inStock: bool)

  datatype RetailerRow = RetailerRow(id: nat, slug: string, name: string)

  /** The three tables and the next values of the two `serial` id sequences. */
  datatype Tables = Tables(parts: map<string, PartRow>, offers: seq<OfferRow>, retailers: seq<RetailerRow>,
                           nextPartId: nat, nextRetailerId: nat)

  const PcppSlug: string := "pcpartpicker"
  const PcppName: string := "PCPartPicker"

  function PartIds(t: Tables): set<nat>
  {
    set s | s in t.parts :: t.parts[s].id
  }

  function RetailerIds(t: Tables): set<nat>
  {
    set i | 0 <= i < |t.retailers| :: t.retailers[i].id
  }

  /**
   * The invariant the script's statements keep: `parts` is keyed by its
   * `sku` and has distinct ids, retailers have distinct slugs and distinct
   * ids, ids are below their counter's next value, and every offer points at
   * an existing part and retailer.
   */
  predicate Valid(t: Tables)
  {
    && (forall s :: s in t.parts ==> t.parts[s].sku == s && t.parts[s].id < t.nextPartId)
    && (forall s1, s2 :: s1 in t.parts && s2 in t.parts && s1 != s2 ==> t.parts[s1].id != t.parts[s2].id)
    && (forall i :: 0 <= i < |t.retailers| ==> t.retailers[i].id < t.nextRetailerId)
    && (forall i, j :: 0 <= i < j < |t.retailers| ==> t.retailers[i].slug != t.retailers[j].slug)
    && (forall i, j :: 0 <= i < j < |t.retailers| ==> t.retailers[i].id != t.retailers[j].id)
    && (forall j :: 0 <= j < |t.offers| ==> t.offers[j].partId in PartIds(t) && t.offers[j].retailerId in RetailerIds(t))
  }

  /** `select id from retailers where slug = ... limit 1`. */
  function FirstRetailerId(rs: seq<RetailerRow>, slug: string): Option<nat>
  {
    if rs == [] then None
    else if rs[0].slug == slug then Some(rs[0].id)
    else FirstRetailerId(rs[1..], slug)
  }

  /** Number of retailer rows with the given slug. */
  function SlugCount(rs: seq<RetailerRow>, slug: string): nat
  {
    if rs == [] then 0 else (if rs[0].slug == slug then 1 else 0) + SlugCount(rs[1..], slug)
  }

  lemma {:induction false} FirstRetailerIdAppend(rs: seq<RetailerRow>, x: RetailerRow, slug: string)
    ensures FirstRetailerId(rs + [x], slug) ==
      if FirstRetailerId(rs, slug).Some? then FirstRetailerId(rs, slug)
      else if x.slug == slug then Some(x.id) else None
  {
    if rs != [] {
      assert (rs + [x])[1..] == rs[1..] + [x];
      FirstRetailerIdAppend(rs[1..], x, slug);
    }
  }

  lemma {:induction false} SlugCountAppend(rs: seq<RetailerRow>, x: RetailerRow, slug: string)
    ensures SlugCount(rs + [x], slug) == SlugCount(rs, slug) + if x.slug == slug then 1 else 0
  {
    if rs != [] {
      assert (rs + [x])[1..] == rs[1..] + [x];
      SlugCountAppend(rs[1..], x, slug);
    }
  }

  /** A slug is counted exactly when the `limit 1` select finds it. */
  lemma {:induction false} SlugCountFound(rs: seq<RetailerRow>, slug: string)
    ensures SlugCount(rs, slug) == 0 <==> FirstRetailerId(rs, slug).None?
    ensures FirstRetailerId(rs, slug).Some? ==> FirstRetailerId(rs, slug).value in set i | 0 <= i < |rs| :: rs[i].id
  {
    if rs != [] {
      SlugCountFound(rs[1..], slug);
      if rs[0].slug != slug && FirstRetailerId(rs, slug).Some? {
        var k :| 0 <= k < |rs[1..]| && rs[1..][k].id == FirstRetailerId(rs, slug).value;
        assert rs[k + 1].id == FirstRetailerId(rs, slug).value;
      }
    }
  }

  /** Unique slugs: no slug is counted twice. */
  lemma {:induction false} UniqueSlugsCountAtMostOne(rs: seq<RetailerRow>, slug: string)
    requires forall i, j :: 0 <= i < j < |rs| ==> rs[i].slug != rs[j].slug
    ensures SlugCount(rs, slug) <= 1
  {
    if rs != [] {
      UniqueSlugsCountAtMostOne(rs[1..], slug);
      if rs[0].slug == slug && SlugCount(rs[1..], slug) > 0 {
        SlugCountFound(rs[1..], slug);
        NoSlugFound(rs[1..], slug);
        assert false;
      }
    }
  }

  /** A slug absent from every row is not found. */
  lemma {:induction false} NoSlugFound(rs: seq<RetailerRow>, slug: string)
    requires forall i :: 0 <= i < |rs| ==> rs[i].slug != slug
    ensures FirstRetailerId(rs, slug).None?
  {
    if rs != [] {
      NoSlugFound(rs[1..], slug);
    }
  }

  /**
   * `insert into retailers ... on conflict (slug) do nothing`: the
   * `pcpartpicker` row is appended only when no row has that slug.
   */
  function EnsuredRetailer(t: Tables): (r: Tables)
    ensures FirstRetailerId(r.retailers, PcppSlug).Some?
  {
    if FirstRetailerId(t.retailers, PcppSlug).Some? then t
    else
      var row := RetailerRow(t.nextRetailerId, PcppSlug, PcppName);
      FirstRetailerIdAppend(t.retailers, row, PcppSlug);
      t.(retailers := t.retailers + [row], nextRetailerId := t.nextRetailerId + 1)
  }

  /**
   * Ensuring the retailer is idempotent, touches nothing but `retailers`, and
   * leaves exactly one `pcpartpicker` row when the slug is unique beforehand.
   * When the slug is missing, exactly the row (`pcpartpicker`, `PCPartPicker`)
   * is appended with the next id, and every other column stays.
   */
  lemma EnsuredRetailerOnce(t: Tables)
    requires SlugCount(t.retailers, PcppSlug) <= 1
    ensures SlugCount(EnsuredRetailer(t).retailers, PcppSlug) == 1
    ensures EnsuredRetailer(EnsuredRetailer(t)) == EnsuredRetailer(t)
    ensures EnsuredRetailer(t).parts == t.parts && EnsuredRetailer(t).offers == t.offers
    ensures FirstRetailerId(t.retailers, PcppSlug).Some? ==> EnsuredRetailer(t) == t
    ensures FirstRetailerId(t.retailers, PcppSlug).None? ==>
      EnsuredRetailer(t) == t.(retailers := t.retailers + [RetailerRow(t.nextRetailerId, PcppSlug, PcppName)],
                               nextRetailerId := t.nextRetailerId + 1)
  {
    SlugCountFound(t.retailers, PcppSlug);
    if FirstRetailerId(t.retailers, PcppSlug).None? {
      SlugCountAppend(t.retailers, RetailerRow(t.nextRetailerId, PcppSlug, PcppName), PcppSlug);
    }
  }

  lemma EnsuredRetailerValid(t: Tables)
    requires Valid(t)
    ensures Valid(EnsuredRetailer(t))
    ensures FirstRetailerId(EnsuredRetailer(t).retailers, PcppSlug).value in RetailerIds(EnsuredRetailer(t))
  {
    var r := EnsuredRetailer(t);
    SlugCountFound(r.retailers, PcppSlug);
    if FirstRetailerId(t.retailers, PcppSlug).None? {
      var row := RetailerRow(t.nextRetailerId, PcppSlug, PcppName);
      forall i | 0 <= i < |t.retailers|
        ensures t.retailers[i].slug != PcppSlug
      {
        if t.retailers[i].slug == PcppSlug {
          SlugCountFound(t.retailers, PcppSlug);
          SlugPresentCounted(t.retailers, PcppSlug, i);
        }
      }
      assert RetailerIds(t) <= RetailerIds(r) by {
        forall id | id in RetailerIds(t) ensures id in RetailerIds(r) {
          var i :| 0 <= i < |t.retailers| && t.retailers[i].id == id;
          assert r.retailers[i].id == id;
        }
      }
    }
  }

  /** A row with the slug is counted. */
  lemma {:induction false} SlugPresentCounted(rs: seq<RetailerRow>, slug: string, i: nat)
    requires i < |rs| && rs[i].slug == slug
    ensures SlugCount(rs, slug) > 0
  {
    if i > 0 {
      SlugPresentCounted(rs[1..], slug, i - 1);
    }
  }

  // ---------------------------------------------------------------------------
  // Per-item upsert

  datatype Upserted = Upserted(tables: Tables, partId: nat)

  /**
   * `insert into parts ... on conflict (sku) do update set price_usd = excluded.price_usd
   * returning id`.
   */
  function UpsertPartRow(t: Tables, sku: string, brand: string, model: string, category: string,
                         stored: real, url: Option<string>): Upserted
  {
    if sku in t.parts then
      var row := t.parts[sku].(priceUsd := stored);
      Upserted(t.(parts := t.parts[sku := row]), row.id)
    else
      var row := PartRow(t.nextPartId, sku, brand, model, category, stored, url);
      Upserted(t.(parts := t.parts[sku := row], nextPartId := t.nextPartId + 1), row.id)
  }

  /** What one call of the loop body needs besides the item. */
  datatype Batch = Batch(category: string, url: Option<string>, retailerId: nat)

  /** The loop body of `upsert_parts_and_offers` for one item. */
  function ItemApplied(t: Tables, item: Item, b: Batch): Tables
  {
    var brand := BrandOf(item);
    var model := ModelOf(item);
    var price := PriceToUsd(item.price);
    if model == "" then t
    else
      var u := UpsertPartRow(t, DeriveSku(brand, model), brand, model, b.category,
                             if price.Some? then price.value else 0.0, b.url);
      match price
      case Some(p) => u.tables.(offers := u.tables.offers + [OfferRow(u.partId, b.retailerId, None, b.url, p, true)])
      case None => u.tables
  }

  /** The loop over the items, in order. */
  function ItemsApplied(t: Tables, items: seq<Item>, b: Batch): Tables
    decreases |items|
  {
    if items == [] then t
    else ItemApplied(ItemsApplied(t, items[..|items| - 1], b), items[|items| - 1], b)
  }

  /** `upsert_parts_and_offers(conn, items, key)` as a whole. */
  function BatchApplied(t: Tables, items: seq<Item>, key: string): Tables
  {
    var t1 := EnsuredRetailer(t);
    ItemsApplied(t1, items, Batch(CategoryOf(key), PlaceholderUrl(key), FirstRetailerId(t1.retailers, PcppSlug).value))
  }

  /** `data.get(key, [])`. */
  function ItemsFor(data: map<string, seq<Item>>, key: string): seq<Item>
  {
    if key in data then data[key] else []
  }

  /** The loop of `main` over the given keys, in order. */
  function KeysApplied(t: Tables, data: map<string, seq<Item>>, keys: seq<string>): Tables
    decreases |keys|
  {
    if keys == [] then t
    else
      var key := keys[|keys| - 1];
      BatchApplied(KeysApplied(t, data, keys[..|keys| - 1]), ItemsFor(data, key), key)
  }

  /** The total `main` prints: the number of items fetched for the keys. */
  function TotalItems(data: map<string, seq<Item>>, keys: seq<string>): nat
    decreases |keys|
  {
    if keys == [] then 0
    else TotalItems(data, keys[..|keys| - 1]) + |ItemsFor(data, keys[|keys| - 1])|
  }

  /** Number of items that reach the part upsert (those the skip test lets through). */
  function UpsertCount(items: seq<Item>): nat
  {
    if items == [] then 0 else (if ModelOf(items[0]) == "" then 0 else 1) + UpsertCount(items[1..])
  }

  /** Number of part upserts `main` performs over the keys. */
  function PartUpserts(data: map<string, seq<Item>>, keys: seq<string>): nat
    decreases |keys|
  {
    if keys == [] then 0
    else PartUpserts(data, keys[..|keys| - 1]) + UpsertCount(ItemsFor(data, keys[|keys| - 1]))
  }

  /** Every item is upserted: the skip branch never fires. */
  lemma {:induction false} EveryItemUpserted(items: seq<Item>)
    ensures UpsertCount(items) == |items|
  {
    if items != [] {
      EveryItemUpserted(items[1..]);
    }
  }

  /** The printed total equals the number of part upserts. */
  lemma {:induction false} PrintedTotalCountsUpserts(data: map<string, seq<Item>>, keys: seq<string>)
    ensures TotalItems(data, keys) == PartUpserts(data, keys)
  {
    if keys != [] {
      PrintedTotalCountsUpserts(data, keys[..|keys| - 1]);
      EveryItemUpserted(ItemsFor(data, keys[|keys| - 1]));
    }
  }

  // ---------------------------------------------------------------------------
  // Properties of the per-item step

  /** Part rows agree on everything but the price. */
  predicate SameExceptPrice(a: PartRow, b: PartRow)
  {
    a.id == b.id && a.sku == b.sku && a.manufacturer == b.manufacturer && a.model == b.model &&
    a.category == b.category && a.canonicalUrl == b.canonicalUrl
  }

  /** The set of SKUs the items produce. */
  function SkusOf(items: seq<Item>): set<string>
  {
    set i | 0 <= i < |items| :: SkuOf(items[i])
  }

  /** The items with a USD price, in order: one offer is written for each. */
  function PricedItems(items: seq<Item>): (r: seq<Item>)
    ensures |r| <= |items|
    ensures forall j :: 0 <= j < |r| ==> PriceToUsd(r[j].price).Some? && r[j] in items
    decreases |items|
  {
    if items == [] then []
    else
      var last := items[|items| - 1];
      PricedItems(items[..|items| - 1]) + if PriceToUsd(last.price).Some? then [last] else []
  }

  /** One item: its SKU is inserted or re-priced, every other row is untouched, and an offer follows a USD price. */
  lemma ItemStep(t: Tables, item: Item, b: Batch)
    ensures var r := ItemApplied(t, item, b); var sku := SkuOf(item);
      && r.parts.Keys == t.parts.Keys + {sku}
      && (forall s :: s in t.parts && s != sku ==> r.parts[s] == t.parts[s])
      && (sku in t.parts ==> r.parts[sku] == t.parts[sku].(priceUsd := StoredPrice(item)) && r.nextPartId == t.nextPartId)
      && (sku !in t.parts ==> r.parts[sku] == PartRow(t.nextPartId, sku, BrandOf(item), ModelOf(item), b.category, StoredPrice(item), b.url)
                               && r.nextPartId == t.nextPartId + 1)
      && r.retailers == t.retailers && r.nextRetailerId == t.nextRetailerId
      && r.offers == t.offers + match PriceToUsd(item.price)
                                case Some(p) => [OfferRow(r.parts[sku].id, b.retailerId, None, b.url, p, true)]
                                case None => []
  {
  }

  lemma ItemStepValid(t: Tables, item: Item, b: Batch)
    requires Valid(t) && b.retailerId in RetailerIds(t)
    ensures Valid(ItemApplied(t, item, b)) && b.retailerId in RetailerIds(ItemApplied(t, item, b))
  {
    var r := ItemApplied(t, item, b);
    var sku := SkuOf(item);
    ItemStep(t, item, b);
    assert RetailerIds(r) == RetailerIds(t);
    assert sku in r.parts;
    assert r.parts[sku].id in PartIds(r);
    forall id | id in PartIds(t) ensures id in PartIds(r) {
      var s :| s in t.parts && t.parts[s].id == id;
      assert r.parts[s].id == id;
    }
  }

  // ---------------------------------------------------------------------------
  // Properties of the loop over a batch of items

  lemma {:induction false} ItemsKeepRetailers(t: Tables, items: seq<Item>, b: Batch)
    ensures ItemsApplied(t, items, b).retailers == t.retailers
    ensures ItemsApplied(t, items, b).nextRetailerId == t.nextRetailerId
    decreases |items|
  {
    if items != [] {
      var n := |items| - 1;
      ItemsKeepRetailers(t, items[..n], b);
      ItemStep(ItemsApplied(t, items[..n], b), items[n], b);
    }
  }

  /** After the loop, `parts` holds exactly the old SKUs and the SKUs of the items. */
  lemma {:induction false} ItemsPartKeys(t: Tables, items: seq<Item>, b: Batch)
    ensures ItemsApplied(t, items, b).parts.Keys == t.parts.Keys + SkusOf(items)
    decreases |items|
  {
    if items != [] {
      var n := |items| - 1;
      ItemsPartKeys(t, items[..n], b);
      ItemStep(ItemsApplied(t, items[..n], b), items[n], b);
      SkusOfSnoc(items);
    }
  }

  lemma SkusOfSnoc(items: seq<Item>)
    requires items != []
    ensures SkusOf(items) == SkusOf(items[..|items| - 1]) + {SkuOf(items[|items| - 1])}
  {
    var n := |items| - 1;
    forall s | s in SkusOf(items) ensures s in SkusOf(items[..n]) + {SkuOf(items[n])} {
      var i :| 0 <= i < |items| && SkuOf(items[i]) == s;
      if i < n {
        assert items[..n][i] == items[i];
      }
    }
    forall s | s in SkusOf(items[..n]) ensures s in SkusOf(items) {
      var i :| 0 <= i < n && SkuOf(items[..n][i]) == s;
      assert items[i] == items[..n][i];
    }
  }

  /** A SKU none of the items produces keeps its row, or its absence. */
  lemma {:induction false} ItemsLeaveOtherSkus(t: Tables, items: seq<Item>, b: Batch, s: string)
    requires s !in SkusOf(items)
    ensures s in ItemsApplied(t, items, b).parts <==> s in t.parts
    ensures s in t.parts ==> ItemsApplied(t, items, b).parts[s] == t.parts[s]
    decreases |items|
  {
    if items != [] {
      var n := |items| - 1;
      SkusOfSnoc(items);
      ItemsLeaveOtherSkus(t, items[..n], b, s);
      ItemStep(ItemsApplied(t, items[..n], b), items[n], b);
    }
  }

  /** On conflict only `price_usd` changes: an existing row keeps its id, SKU, manufacturer, model, category and URL. */
  lemma {:induction false} ItemsKeepExistingRows(t: Tables, items: seq<Item>, b: Batch, s: string)
    requires s in t.parts
    ensures s in ItemsApplied(t, items, b).parts
    ensures SameExceptPrice(ItemsApplied(t, items, b).parts[s], t.parts[s])
    decreases |items|
  {
    if items != [] {
      var n := |items| - 1;
      ItemsKeepExistingRows(t, items[..n], b, s);
      ItemStep(ItemsApplied(t, items[..n], b), items[n], b);
    }
  }

  /** Among items with the same SKU, the last one's price is the one stored (missing prices store 0). */
  lemma {:induction false} LatestPriceWins(t: Tables, items: seq<Item>, b: Batch, i: nat)
    requires i < |items|
    requires forall j :: i < j < |items| ==> SkuOf(items[j]) != SkuOf(items[i])
    ensures SkuOf(items[i]) in ItemsApplied(t, items, b).parts
    ensures ItemsApplied(t, items, b).parts[SkuOf(items[i])].priceUsd == StoredPrice(items[i])
    decreases |items|
  {
    var n := |items| - 1;
    ItemStep(ItemsApplied(t, items[..n], b), items[n], b);
    if i < n {
      LatestPriceWins(t, items[..n], b, i);
    }
  }

  /** A new SKU's row is described by the first item that produces it. */
  lemma {:induction false} FirstItemDescribesNewPart(t: Tables, items: seq<Item>, b: Batch, i: nat)
    requires i < |items| && SkuOf(items[i]) !in t.parts
    requires forall j :: 0 <= j < i ==> SkuOf(items[j]) != SkuOf(items[i])
    ensures SkuOf(items[i]) in ItemsApplied(t, items, b).parts
    ensures var row := ItemsApplied(t, items, b).parts[SkuOf(items[i])];
      row.sku == SkuOf(items[i]) && row.manufacturer == BrandOf(items[i]) && row.model == ModelOf(items[i]) &&
      row.category == b.category && row.canonicalUrl == b.url
    decreases |items|
  {
    var n := |items| - 1;
    if i < n {
      assert items[..n][i] == items[i];
      FirstItemDescribesNewPart(t, items[..n], b, i);
      ItemStep(ItemsApplied(t, items[..n], b), items[n], b);
    } else {
      LastItemInsertsNewPart(t, items, b);
    }
  }

  /** The base case of FirstItemDescribesNewPart: the last item is the first with its SKU. */
  lemma LastItemInsertsNewPart(t: Tables, items: seq<Item>, b: Batch)
    requires items != [] && SkuOf(items[|items| - 1]) !in t.parts
    requires forall j :: 0 <= j < |items| - 1 ==> SkuOf(items[j]) != SkuOf(items[|items| - 1])
    ensures var s := SkuOf(items[|items| - 1]); var r := ItemsApplied(t, items, b);
      s in r.parts && r.parts[s] == PartRow(r.parts[s].id, s, BrandOf(items[|items| - 1]), ModelOf(items[|items| - 1]),
                                            b.category, StoredPrice(items[|items| - 1]), b.url)
  {
    var n := |items| - 1;
    var s := SkuOf(items[n]);
    assert s !in SkusOf(items[..n]);
    ItemsLeaveOtherSkus(t, items[..n], b, s);
    ItemStep(ItemsApplied(t, items[..n], b), items[n], b);
  }

  /**
   * Offers are only appended: one per item with a USD price, in item order,
   * for the part row of that item's SKU, at that price, in stock, with the
   * batch's retailer and category page URL and no retailer SKU.
   */
  lemma {:induction false} ItemsOffers(t: Tables, items: seq<Item>, b: Batch)
    ensures var r := ItemsApplied(t, items, b);
      && |r.offers| == |t.offers| + |PricedItems(items)|
      && r.offers[..|t.offers|] == t.offers
      && forall j :: 0 <= j < |PricedItems(items)| ==>
           var item := PricedItems(items)[j];
           var o := r.offers[|t.offers| + j];
           && SkuOf(item) in r.parts && o.partId == r.parts[SkuOf(item)].id
           && o.priceUsd == PriceToUsd(item.price).value && o.inStock && o.url == b.url
           && o.retailerId == b.retailerId && o.retailerSku.None?
    decreases |items|
  {
    if items != [] {
      var n := |items| - 1;
      var mid := ItemsApplied(t, items[..n], b);
      ItemsOffers(t, items[..n], b);
      ItemStep(mid, items[n], b);
      var r := ItemsApplied(t, items, b);
      var before := PricedItems(items[..n]);
      assert r.offers[..|mid.offers|] == mid.offers;
      assert r.offers[..|t.offers|] == mid.offers[..|t.offers|];
      forall j | 0 <= j < |PricedItems(items)|
        ensures SkuOf(PricedItems(items)[j]) in r.parts
        ensures r.offers[|t.offers| + j].partId == r.parts[SkuOf(PricedItems(items)[j])].id
        ensures r.offers[|t.offers| + j].priceUsd == PriceToUsd(PricedItems(items)[j].price).value
        ensures r.offers[|t.offers| + j].inStock && r.offers[|t.offers| + j].url == b.url
        ensures r.offers[|t.offers| + j].retailerId == b.retailerId && r.offers[|t.offers| + j].retailerSku.None?
      {
        if j < |before| {
          var sku := SkuOf(before[j]);
          assert PricedItems(items)[j] == before[j];
          assert r.offers[|t.offers| + j] == mid.offers[|t.offers| + j];
          assert sku in mid.parts;
          assert r.parts[sku].id == mid.parts[sku].id;
        } else {
          assert PricedItems(items)[j] == items[n];
        }
      }
    }
  }

  lemma {:induction false} ItemsValid(t: Tables, items: seq<Item>, b: Batch)
    requires Valid(t) && b.retailerId in RetailerIds(t)
    ensures Valid(ItemsApplied(t, items, b)) && b.retailerId in RetailerIds(ItemsApplied(t, items, b))
    decreases |items|
  {
    if items != [] {
      var n := |items| - 1;
      ItemsValid(t, items[..n], b);
      ItemStepValid(ItemsApplied(t, items[..n], b), items[n], b);
    }
  }

  /**
   * One call of `upsert_parts_and_offers` keeps the script's invariant, ends
   * with exactly one `pcpartpicker` retailer, and points every new offer at it.
   */
  lemma BatchValid(t: Tables, items: seq<Item>, key: string)
    requires Valid(t)
    ensures Valid(BatchApplied(t, items, key))
    ensures SlugCount(BatchApplied(t, items, key).retailers, PcppSlug) == 1
    ensures var r := BatchApplied(t, items, key);
      && FirstRetailerId(r.retailers, PcppSlug).Some?
      && forall j :: |t.offers| <= j < |r.offers| ==> r.offers[j].retailerId == FirstRetailerId(r.retailers, PcppSlug).value
  {
    var t1 := EnsuredRetailer(t);
    var b := Batch(CategoryOf(key), PlaceholderUrl(key), FirstRetailerId(t1.retailers, PcppSlug).value);
    UniqueSlugsCountAtMostOne(t.retailers, PcppSlug);
    EnsuredRetailerOnce(t);
    EnsuredRetailerValid(t);
    ItemsValid(t1, items, b);
    ItemsKeepRetailers(t1, items, b);
    ItemsOffers(t1, items, b);
    var r := BatchApplied(t, items, key);
    forall j | |t.offers| <= j < |r.offers|
      ensures r.offers[j].retailerId == FirstRetailerId(r.retailers, PcppSlug).value
    {
      var k := j - |t.offers|;
      assert t1.offers == t.offers && 0 <= k < |PricedItems(items)|;
      assert SkuOf(PricedItems(items)[k]) in r.parts;
      assert r.offers[|t1.offers| + k].retailerId == b.retailerId;
    }
  }

  /** Re-running the ingestion over any data keeps the script's invariant and a single `pcpartpicker` row. */
  lemma {:induction false} RepeatedRunsOneRetailer(t: Tables, data: map<string, seq<Item>>, keys: seq<string>)
    requires Valid(t)
    requires keys != [] || SlugCount(t.retailers, PcppSlug) == 1
    ensures Valid(KeysApplied(t, data, keys))
    ensures SlugCount(KeysApplied(t, data, keys).retailers, PcppSlug) == 1
    decreases |keys|
  {
    if keys != [] {
      var n := |keys| - 1;
      if n > 0 {
        RepeatedRunsOneRetailer(t, data, keys[..n]);
      }
      BatchValid(KeysApplied(t, data, keys[..n]), ItemsFor(data, keys[n]), keys[n]);
    }
  }

  // ---------------------------------------------------------------------------
  // The database the script writes to

  /** The three tables, updated in place by the script's statements. */
  class Database {
    var parts: map<string, PartRow>
    var offers: seq<OfferRow>
    var retailers: seq<RetailerRow>
    var nextPartId: nat
    var nextRetailerId: nat
    /** How many part upsert statements have been executed. */
    ghost var upserts: nat

    function Snapshot(): Tables
      reads this
    {
      Tables(parts, offers, retailers, nextPartId, nextRetailerId)
    }

    constructor (t: Tables)
      ensures Snapshot() == t && upserts == 0
    {
      parts, offers, retailers := t.parts, t.offers, t.retailers;
      nextPartId, nextRetailerId := t.nextPartId, t.nextRetailerId;
      upserts := 0;
    }

    /** Insert the `pcpartpicker` retailer unless its slug exists, then select its id. */
    method EnsureRetailer() returns (retailerId: nat)
      modifies this
      ensures Snapshot() == EnsuredRetailer(old(Snapshot()))
      ensures FirstRetailerId(retailers, PcppSlug) == Some(retailerId)
      ensures upserts == old(upserts)
    {
      if FirstRetailerId(retailers, PcppSlug).None? {
        FirstRetailerIdAppend(retailers, RetailerRow(nextRetailerId, PcppSlug, PcppName), PcppSlug);
        retailers := retailers + [RetailerRow(nextRetailerId, PcppSlug, PcppName)];
        nextRetailerId := nextRetailerId + 1;
      }
      var selected := FirstRetailerId(retailers, PcppSlug);
      retailerId := selected.value;
    }

    /** The part upsert; returns the id of the inserted or updated row. */
    method UpsertPart(sku: string, brand: string, model: string, category: string, priceUsd: Option<real>,
                      url: Option<string>) returns (partId: nat)
      modifies this
      ensures var u := UpsertPartRow(old(Snapshot()), sku, brand, model, category,
                                     if priceUsd.Some? then priceUsd.value else 0.0, url);
              Snapshot() == u.tables && partId == u.partId
      ensures upserts == old(upserts) + 1
    {
      upserts := upserts + 1;
      var stored := if priceUsd.Some? then priceUsd.value else 0.0;
      if sku in parts {
        partId := parts[sku].id;
        parts := parts[sku := parts[sku].(priceUsd := stored)];
      } else {
        partId := nextPartId;
        parts := parts[sku := PartRow(partId, sku, brand, model, category, stored, url)];
        nextPartId := nextPartId + 1;
      }
    }

    /** `upsert_parts_and_offers`: ensure the retailer, then upsert each item and write its offer. */
    method UpsertPartsAndOffers(items: seq<Item>, key: string)
      modifies this
      ensures Snapshot() == BatchApplied(old(Snapshot()), items, key)
      ensures upserts == old(upserts) + |items|
    {
      var category := CategoryOf(key);
      var url := PlaceholderUrl(key);
      var retailerId := EnsureRetailer();
      ghost var start := Snapshot();
      ghost var b := Batch(category, url, retailerId);
      ghost var upsertsBefore := upserts;
      for i := 0 to |items|
        invariant Snapshot() == ItemsApplied(start, items[..i], b)
        invariant upserts == upsertsBefore + i
      {
        var item := items[i];
        var brand := BrandOf(item);
        var model := ModelOf(item);
        var priceUsd := PriceToUsd(item.price);
        assert items[..i + 1][..i] == items[..i];
        if model != "" {
          var sku := DeriveSku(brand, model);
          var partId := UpsertPart(sku, brand, model, category, priceUsd, url);
          if priceUsd.Some? {
            offers := offers + [OfferRow(partId, retailerId, None, url, priceUsd.value, true)];
          }
        }
      }
      assert items[..|items|] == items;
    }

    /** The loop of `main`: every supported key's items, and the total it prints. */
    method IngestAll(data: map<string, seq<Item>>) returns (total: nat)
      modifies this
      ensures Snapshot() == KeysApplied(old(Snapshot()), data, Supported)
      ensures total == TotalItems(data, Supported) == PartUpserts(data, Supported)
      ensures upserts == old(upserts) + total
    {
      total := 0;
      ghost var start := Snapshot();
      for k := 0 to |Supported|
        invariant Snapshot() == KeysApplied(start, data, Supported[..k])
        invariant total == TotalItems(data, Supported[..k])
        invariant upserts == old(upserts) + total
      {
        var key := Supported[k];
        var items := if key in data then data[key] else [];
        assert Supported[..k + 1][..k] == Supported[..k];
        UpsertPartsAndOffers(items, key);
        total := total + |items|;
      }
      assert Supported[..|Supported|] == Supported;
      PrintedTotalCountsUpserts(data, Supported);
    }
  }
}
