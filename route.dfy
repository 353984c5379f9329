/**
 * The `GET` handler of app/api/inventory/route.ts: resolve the query to a
 * SteamID64, fetch and join the inventory, collate it by item name, price
 * each distinct name, add up the portfolio and rank the rows by net ask.
 * Every network answer is a parameter: `inventoryFor` (the inventory
 * response for an id) and `feedsFor` (the four venues' answers for a name).
 */
module InventoryRoute {
  import opened Common
  import opened Sorting
  import opened Quotes
  import opened Fees
  import opened Matrix
  import opened Batch
  import opened SteamId
  import opened Inventory

  // ---------- Naming and icons ----------

  /** A truthy string field: present and not empty. */
  predicate Filled(o: Option<string>) {
    o.Some? && o.value != ""
  }

  /** `market_hash_name || market_name || name`; `None` when all three are falsy. */
  function ItemName(it: InventoryItem): (r: Option<string>)
    ensures r.Some? <==> Filled(it.marketHashName) || Filled(it.marketName) || Filled(it.name)
    ensures r.Some? ==> r.value != ""
    ensures Filled(it.marketHashName) ==> r == it.marketHashName
    ensures !Filled(it.marketHashName) && Filled(it.marketName) ==> r == it.marketName
    ensures !Filled(it.marketHashName) && !Filled(it.marketName) && Filled(it.name) ==> r == it.name
  {
    if Filled(it.marketHashName) then it.marketHashName
    else if Filled(it.marketName) then it.marketName
    else if Filled(it.name) then it.name
    else None
  }

  /** `icon_url || icon_url_large || ''` */
  function IconOf(it: InventoryItem): (r: string)
    ensures Filled(it.iconUrl) ==> r == it.iconUrl.value
    ensures !Filled(it.iconUrl) && Filled(it.iconUrlLarge) ==> r == it.iconUrlLarge.value
    ensures r == "" <==> !Filled(it.iconUrl) && !Filled(it.iconUrlLarge)
  {
    if Filled(it.iconUrl) then it.iconUrl.value
    else if Filled(it.iconUrlLarge) then it.iconUrlLarge.value
    else ""
  }

  const CdnPrefix: string := "https://steamcommunity-a.akamaihd.net/economy/image/"

  /** The icon as shown: the CDN URL of a non-empty icon path, else ''. */
  function IconField(icon: string): (r: string)
    ensures r == "" <==> icon == ""
    ensures icon != "" ==> r == CdnPrefix + icon
  {
    if icon == "" then "" else CdnPrefix + icon
  }

  // ---------- Collation: specification ----------

  /** The names of the items that have one, in inventory order. */
  function Names(inv: seq<InventoryItem>): (ns: seq<string>)
    ensures |ns| <= |inv|
  {
    if inv == [] then []
    else
      var last := inv[|inv| - 1];
      Names(inv[..|inv| - 1]) + (if ItemName(last).Some? then [ItemName(last).value] else [])
  }

  /** The distinct elements of `s` in order of first appearance. */
  function Dedup(s: seq<string>): (r: seq<string>)
    ensures forall x :: x in r <==> x in s
  {
    if s == [] then []
    else
      var init := Dedup(s[..|s| - 1]);
      if s[|s| - 1] in s[..|s| - 1] then init else init + [s[|s| - 1]]
  }

  /** The first non-empty icon among the items named `n`, or ''. */
  function FirstIcon(inv: seq<InventoryItem>, n: string): string {
    if inv == [] then ""
    else
      var last := inv[|inv| - 1];
      var earlier := FirstIcon(inv[..|inv| - 1], n);
      if earlier != "" then earlier
      else if ItemName(last) == Some(n) then IconOf(last)
      else ""
  }

  lemma DedupSnoc(s: seq<string>, x: string)
    ensures Dedup(s + [x]) == if x in s then Dedup(s) else Dedup(s) + [x]
  {
    assert (s + [x])[..|s|] == s;
  }

  /** A collated entry: the icon and the number of copies. */
  datatype Meta = Meta(icon: string, count: nat)

  ghost function NameKeys(inv: seq<InventoryItem>): set<string> {
    set n | n in Names(inv)
  }

  /** What the entry of `n` holds once `inv` is collated. */
  ghost function Entry(inv: seq<InventoryItem>, n: string): Meta {
    Meta(IconField(FirstIcon(inv, n)), multiset(Names(inv))[n])
  }

  /** One item of the loop: one more copy, and its icon if the entry has none yet. */
  function Bump(cur: Meta, icon: string): Meta {
    var counted := cur.(count := cur.count + 1);
    if counted.icon == "" && icon != "" then counted.(icon := IconField(icon)) else counted
  }

  lemma {:induction false} UnnamedHasNoIcon(inv: seq<InventoryItem>, n: string)
    requires n !in Names(inv)
    ensures FirstIcon(inv, n) == ""
  {
    if inv != [] {
      var init := inv[..|inv| - 1];
      assert Names(inv) == Names(init) + (if ItemName(inv[|inv| - 1]).Some? then [ItemName(inv[|inv| - 1]).value] else []);
      UnnamedHasNoIcon(init, n);
    }
  }

  lemma EntryStep(prev: seq<InventoryItem>, it: InventoryItem)
    ensures Names(prev + [it]) == Names(prev) + (if ItemName(it).Some? then [ItemName(it).value] else [])
    ensures forall n :: Some(n) != ItemName(it) ==> Entry(prev + [it], n) == Entry(prev, n)
    ensures ItemName(it).Some? ==>
      Entry(prev + [it], ItemName(it).value) == Bump(Entry(prev, ItemName(it).value), IconOf(it))
  {
    assert (prev + [it])[..|prev|] == prev;
    if ItemName(it).Some? {
      var n := ItemName(it).value;
      assert multiset(Names(prev + [it]))[n] == multiset(Names(prev))[n] + 1;
    }
  }

  /** The loop's state once the items `done` are collated. */
  ghost predicate Collated(done: seq<InventoryItem>, uniqueNames: seq<string>, byName: map<string, Meta>) {
    && uniqueNames == Dedup(Names(done))
    && byName.Keys == NameKeys(done)
    && forall n :: n in byName ==> byName[n] == Entry(done, n)
  }

  lemma CollateSkipsUnnamed(prev: seq<InventoryItem>, it: InventoryItem, uniqueNames: seq<string>, byName: map<string, Meta>)
    requires ItemName(it).None? && Collated(prev, uniqueNames, byName)
    ensures Collated(prev + [it], uniqueNames, byName)
  {
    EntryStep(prev, it);
    assert Names(prev + [it]) == Names(prev);
  }

  lemma NamedKeysStep(prev: seq<InventoryItem>, it: InventoryItem, byName: map<string, Meta>, cur: Meta)
    requires ItemName(it).Some? && byName.Keys == NameKeys(prev)
    ensures byName[ItemName(it).value := cur].Keys == NameKeys(prev + [it])
  {
    EntryStep(prev, it);
  }

  lemma NamedOrderStep(prev: seq<InventoryItem>, it: InventoryItem, uniqueNames: seq<string>, byName: map<string, Meta>)
    requires ItemName(it).Some? && uniqueNames == Dedup(Names(prev)) && byName.Keys == NameKeys(prev)
    ensures var n := ItemName(it).value;
      (if n in byName then uniqueNames else uniqueNames + [n]) == Dedup(Names(prev + [it]))
  {
    EntryStep(prev, it);
    var n := ItemName(it).value;
    assert n in byName <==> n in Names(prev);
    DedupSnoc(Names(prev), n);
  }

  lemma NamedEntriesStep(prev: seq<InventoryItem>, it: InventoryItem, byName: map<string, Meta>)
    requires ItemName(it).Some? && byName.Keys == NameKeys(prev)
    requires forall n :: n in byName ==> byName[n] == Entry(prev, n)
    ensures var n := ItemName(it).value;
      var byName' := byName[n := Bump(if n in byName then byName[n] else Meta("", 0), IconOf(it))];
      forall m :: m in byName' ==> byName'[m] == Entry(prev + [it], m)
  {
    EntryStep(prev, it);
    var n := ItemName(it).value;
    if n !in byName {
      assert n !in Names(prev);
      UnnamedHasNoIcon(prev, n);
    }
  }

  lemma CollateCountsNamed(prev: seq<InventoryItem>, it: InventoryItem, uniqueNames: seq<string>, byName: map<string, Meta>,
                           uniqueNames': seq<string>, byName': map<string, Meta>)
    requires ItemName(it).Some? && Collated(prev, uniqueNames, byName)
    requires var n := ItemName(it).value;
      && uniqueNames' == (if n in byName then uniqueNames else uniqueNames + [n])
      && byName' == byName[n := Bump(if n in byName then byName[n] else Meta("", 0), IconOf(it))]
    ensures Collated(prev + [it], uniqueNames', byName')
  {
    var n := ItemName(it).value;
    NamedKeysStep(prev, it, byName, byName'[n]);
    NamedOrderStep(prev, it, uniqueNames, byName);
    NamedEntriesStep(prev, it, byName);
  }

  /**
   * The collation loop: one entry per distinct name, in order of first
   * appearance, holding the number of items with that name and the CDN URL
   * of the first non-empty icon among them.
   */
  method Collate(inv: seq<InventoryItem>) returns (uniqueNames: seq<string>, byName: map<string, Meta>)
    ensures uniqueNames == Dedup(Names(inv))
    ensures byName.Keys == NameKeys(inv)
    ensures forall n :: n in byName ==>
      byName[n] == Meta(IconField(FirstIcon(inv, n)), multiset(Names(inv))[n])
  {
    uniqueNames, byName := [], map[];
    assert inv[..0] == [];
    for i := 0 to |inv|
      invariant Collated(inv[..i], uniqueNames, byName)
    {
      assert inv[..i + 1] == inv[..i] + [inv[i]];
      var name := ItemName(inv[i]);
      if name.None? {
        CollateSkipsUnnamed(inv[..i], inv[i], uniqueNames, byName);
      } else {
        ghost var uniqueNames0, byName0 := uniqueNames, byName;
        var n := name.value;
        var icon := IconOf(inv[i]);
        var isNew := n !in byName;
        var cur := if n in byName then byName[n] else Meta(IconField(icon), 0);
        cur := cur.(count := cur.count + 1);
        if cur.icon == "" && icon != "" {
          cur := cur.(icon := IconField(icon));
        }
        assert cur == Bump(if isNew then Meta("", 0) else byName[n], icon);
        byName := byName[n := cur];
        if isNew {
          uniqueNames := uniqueNames + [n];
        }
        CollateCountsNamed(inv[..i], inv[i], uniqueNames0, byName0, uniqueNames, byName);
      }
    }
    assert inv[..|inv|] == inv;
  }

  // ---------- Collation: properties ----------

  /** No name is listed twice. */
  lemma {:induction false} DedupHasNoDuplicates(s: seq<string>)
    ensures forall i, j :: 0 <= i < j < |Dedup(s)| ==> Dedup(s)[i] != Dedup(s)[j]
  {
    if s != [] {
      DedupHasNoDuplicates(s[..|s| - 1]);
    }
  }

  /** The first position of `x` in `s`. */
  function FirstIndex(s: seq<string>, x: string): (k: nat)
    requires x in s
    ensures k < |s| && s[k] == x && x !in s[..k]
  {
    if s[0] == x then 0
    else
      assert x in s[1..];
      var k := FirstIndex(s[1..], x);
      assert s[..k + 1] == [s[0]] + s[1..][..k];
      k + 1
  }

  lemma FirstIndexOfPrefix(s: seq<string>, t: seq<string>, x: string)
    requires x in s
    ensures FirstIndex(s + t, x) == FirstIndex(s, x)
  {
    assert forall j :: 0 <= j < |s| ==> (s + t)[j] == s[j];
  }

  /** The names are listed in order of their first appearance. */
  lemma {:induction false} DedupKeepsFirstAppearanceOrder(s: seq<string>)
    ensures forall i, j :: 0 <= i < j < |Dedup(s)| ==>
      FirstIndex(s, Dedup(s)[i]) < FirstIndex(s, Dedup(s)[j])
  {
    if s != [] {
      var init, last := s[..|s| - 1], s[|s| - 1];
      DedupKeepsFirstAppearanceOrder(init);
      assert s == init + [last];
      forall x | x in init ensures FirstIndex(s, x) == FirstIndex(init, x) {
        FirstIndexOfPrefix(init, [last], x);
      }
      if last !in init {
        assert FirstIndex(s, last) == |init|;
      }
    }
  }

  /** The count of each of `keys` in `m`, summed. */
  function CountSum(keys: seq<string>, m: multiset<string>): nat {
    if keys == [] then 0 else CountSum(keys[..|keys| - 1], m) + m[keys[|keys| - 1]]
  }

  lemma {:induction false} CountSumAddOne(keys: seq<string>, m: multiset<string>, x: string)
    requires forall i, j :: 0 <= i < j < |keys| ==> keys[i] != keys[j]
    ensures CountSum(keys, m + multiset{x}) == CountSum(keys, m) + (if x in keys then 1 else 0)
  {
    if keys != [] {
      var init := keys[..|keys| - 1];
      CountSumAddOne(init, m, x);
      assert keys[|keys| - 1] == x ==> x !in init;
      assert x in keys <==> x in init || keys[|keys| - 1] == x;
    }
  }

  /** Every named item is counted exactly once: the counts add up to the number of named items. */
  lemma {:induction false} CountsAddUp(s: seq<string>)
    ensures CountSum(Dedup(s), multiset(s)) == |s|
  {
    if s != [] {
      var init, last := s[..|s| - 1], s[|s| - 1];
      CountsAddUp(init);
      assert s == init + [last];
      assert multiset(s) == multiset(init) + multiset{last};
      DedupHasNoDuplicates(init);
      CountSumAddOne(Dedup(init), multiset(init), last);
      assert last in Dedup(init) <==> last in init;
      if last !in init {
        assert Dedup(s) == Dedup(init) + [last];
        assert multiset(init)[last] == 0;
        assert (Dedup(init) + [last])[..|Dedup(init)|] == Dedup(init);
      } else {
        assert Dedup(s) == Dedup(init);
      }
    }
  }

  /** The icon chosen for `n` is the first non-empty one among the items named `n`, or '' when there is none. */
  lemma {:induction false} FirstIconIsFirst(inv: seq<InventoryItem>, n: string)
    ensures FirstIcon(inv, n) == "" <==>
      forall i :: 0 <= i < |inv| && ItemName(inv[i]) == Some(n) ==> IconOf(inv[i]) == ""
    ensures FirstIcon(inv, n) != "" ==>
      exists i :: && 0 <= i < |inv| && ItemName(inv[i]) == Some(n)
                  && IconOf(inv[i]) == FirstIcon(inv, n)
                  && forall j :: 0 <= j < i && ItemName(inv[j]) == Some(n) ==> IconOf(inv[j]) == ""
  {
    if inv != [] {
      var init := inv[..|inv| - 1];
      FirstIconIsFirst(init, n);
      assert forall j :: 0 <= j < |init| ==> inv[j] == init[j];
      if FirstIcon(init, n) != "" {
        var i :| 0 <= i < |init| && ItemName(init[i]) == Some(n) && IconOf(init[i]) == FirstIcon(init, n)
          && forall j :: 0 <= j < i && ItemName(init[j]) == Some(n) ==> IconOf(init[j]) == "";
        assert ItemName(inv[i]) == Some(n) && IconOf(inv[i]) == FirstIcon(inv, n);
      }
    }
  }

  /** Items added later never change an icon already found. */
  lemma {:induction false} IconIsStable(inv: seq<InventoryItem>, more: seq<InventoryItem>, n: string)
    requires FirstIcon(inv, n) != ""
    ensures FirstIcon(inv + more, n) == FirstIcon(inv, n)
  {
    if more == [] {
      assert inv + more == inv;
    } else {
      var init := more[..|more| - 1];
      IconIsStable(inv, init, n);
      assert (inv + more)[..|inv + more| - 1] == inv + init;
    }
  }

  // ---------- Valuation ----------

  /** The fee model the route prices with. */
  function RouteFees(): (f: FeeModel)
    ensures ValidFees(f)
    ensures FeePct(f, Steam) == 0.15 && FeePct(f, Skinport) == 0.12
    ensures FeePct(f, CSFloat) == 0.01 && FeePct(f, Buff) == 0.02
    ensures FxHaircut(f) == 0.0 && forall v :: PayoutFee(f, v) == 0.0
  {
    FeeModel(map[Steam := 0.15, Skinport := 0.12, CSFloat := 0.01, Buff := 0.02],
             Some(map[Skinport := 0.0, CSFloat := 0.0, Buff := 0.0]), Some(0.0))
  }

  /** One row of the response. */
  datatype Row = Row(name: string, icon: string, count: nat, pricing: PriceMatrix)

  /** `m.bestVenue?.netAsk ?? null` */
  function BestNet(m: PriceMatrix): Option<real> {
    if m.bestVenue.None? then None else m.bestVenue.value.netAsk
  }

  /** The sort key: the best net ask, 0 without one. */
  function RowKey(r: Row): real {
    BestNet(r.pricing).GetOr(0.0)
  }

  /** What a row adds to the total: best net ask times copies, 0 without a best venue. */
  function Worth(r: Row): real {
    if BestNet(r.pricing).Some? then BestNet(r.pricing).value * r.count as real else 0.0
  }

  function TotalWorth(rows: seq<Row>): real {
    if rows == [] then 0.0 else Worth(rows[0]) + TotalWorth(rows[1..])
  }

  lemma {:induction false} TotalWorthAppend(a: seq<Row>, b: seq<Row>)
    ensures TotalWorth(a + b) == TotalWorth(a) + TotalWorth(b)
  {
    if a == [] {
      assert a + b == b;
    } else {
      assert (a + b)[1..] == a[1..] + b;
      TotalWorthAppend(a[1..], b);
    }
  }

  /** The total does not depend on the order of the rows. */
  lemma {:induction false} TotalWorthOfInsert(x: Row, s: seq<Row>)
    ensures TotalWorth(Insert(x, s, RowKey)) == Worth(x) + TotalWorth(s)
  {
    if s != [] && RowKey(x) < RowKey(s[0]) {
      TotalWorthOfInsert(x, s[1..]);
    }
  }

  lemma {:induction false} TotalWorthOfSorted(s: seq<Row>)
    ensures TotalWorth(SortDesc(s, RowKey)) == TotalWorth(s)
  {
    if s != [] {
      TotalWorthOfSorted(s[1..]);
      TotalWorthOfInsert(s[0], SortDesc(s[1..], RowKey));
    }
  }

  /** Rows whose best net ask is non-negative add up to a non-negative total. */
  lemma {:induction false} TotalWorthNonNegative(rows: seq<Row>)
    requires forall i :: 0 <= i < |rows| && BestNet(rows[i].pricing).Some? ==> BestNet(rows[i].pricing).value >= 0.0
    ensures TotalWorth(rows) >= 0.0
  {
    if rows != [] {
      TotalWorthNonNegative(rows[1..]);
      if BestNet(rows[0].pricing).Some? {
        PositiveProduct(BestNet(rows[0].pricing).value, rows[0].count as real);
      }
    }
  }

  /** The row each distinct name gets, before sorting. */
  function RowFor(n: string, meta: Meta, m: PriceMatrix): Row {
    Row(n, meta.icon, meta.count, m)
  }

  /**
   * The `map` callback with its `total +=`: one row per name in order, and
   * the sum of best net ask times count over the names that have one.
   */
  method ValueRows(names: seq<string>, byName: map<string, Meta>, matrices: map<string, PriceMatrix>)
    returns (rows: seq<Row>, total: real)
    requires forall n :: n in names ==> n in byName && n in matrices
    ensures |rows| == |names|
    ensures forall i :: 0 <= i < |names| ==> rows[i] == RowFor(names[i], byName[names[i]], matrices[names[i]])
    ensures total == TotalWorth(rows)
  {
    rows, total := [], 0.0;
    for i := 0 to |names|
      invariant |rows| == i
      invariant forall j :: 0 <= j < i ==> rows[j] == RowFor(names[j], byName[names[j]], matrices[names[j]])
      invariant total == TotalWorth(rows)
    {
      var name := names[i];
      var meta := byName[name];
      var m := matrices[name];
      var bestNet := BestNet(m);
      var row := Row(name, meta.icon, meta.count, m);
      TotalWorthAppend(rows, [row]);
      if bestNet.Some? {
        total := total + bestNet.value * meta.count as real;
      }
      rows := rows + [row];
    }
  }

  // ---------- The handler ----------

  datatype Response =
    | ErrorResponse(status: int, error: string)
    | Valuation(items: seq<Row>, total: real)

  const UnresolvedMessage: string := "Could not resolve SteamID from input."
  const NoInventoryMessage: string := "No inventory or profile is private."

  /** The rows of the response before sorting: one per distinct name, in first-appearance order. */
  function ExpectedRows(inv: seq<InventoryItem>, feedsFor: string -> VenueFeeds,
                        csfloatKey: Option<string>): (rows: seq<Row>)
    ensures |rows| == |Dedup(Names(inv))|
  {
    var names := Dedup(Names(inv));
    seq(|names|, i requires 0 <= i < |names| => ExpectedRow(inv, names[i], feedsFor, csfloatKey))
  }

  /** The row of one distinct name: its first icon, its count and its matrix under the route's fees. */
  function ExpectedRow(inv: seq<InventoryItem>, n: string, feedsFor: string -> VenueFeeds,
                       csfloatKey: Option<string>): (row: Row)
    ensures row.name == n
  {
    Row(n, IconField(FirstIcon(inv, n)), multiset(Names(inv))[n],
        BuildPriceMatrix(n, feedsFor(n), csfloatKey, Some(RouteFees())))
  }

  lemma RowsAreExpected(inv: seq<InventoryItem>, feedsFor: string -> VenueFeeds, csfloatKey: Option<string>,
                        names: seq<string>, byName: map<string, Meta>, matrices: map<string, PriceMatrix>,
                        rows: seq<Row>)
    requires names == Dedup(Names(inv))
    requires forall n :: n in byName ==> byName[n] == Meta(IconField(FirstIcon(inv, n)), multiset(Names(inv))[n])
    requires forall n :: n in names ==> n in byName
    requires forall n :: n in matrices ==> matrices[n] == BuildPriceMatrix(n, feedsFor(n), csfloatKey, Some(RouteFees()))
    requires forall n :: n in names ==> n in matrices
    requires |rows| == |names|
    requires forall i :: 0 <= i < |names| ==> rows[i] == RowFor(names[i], byName[names[i]], matrices[names[i]])
    ensures rows == ExpectedRows(inv, feedsFor, csfloatKey)
  {
  }

  /**
   * The valuation half of the handler: collate, price every distinct name
   * with the route's fee model, add up and rank.
   */
  method ValueInventory(inv: seq<InventoryItem>, feedsFor: string -> VenueFeeds, csfloatKey: Option<string>)
    returns (items: seq<Row>, total: real)
    ensures items == SortDesc(ExpectedRows(inv, feedsFor, csfloatKey), RowKey)
    ensures total == RoundCents(TotalWorth(ExpectedRows(inv, feedsFor, csfloatKey)))
  {
    var uniqueNames, byName := Collate(inv);
    var matrices := BuildMatrices(uniqueNames, feedsFor, csfloatKey, Some(RouteFees()));
    assert forall n :: n in uniqueNames ==> n in byName && n in matrices;
    var rows, sum := ValueRows(uniqueNames, byName, matrices);
    RowsAreExpected(inv, feedsFor, csfloatKey, uniqueNames, byName, matrices, rows);
    items := SortDesc(rows, RowKey);
    total := RoundCents(sum);
  }

  /**
   * `GET /api/inventory?query=…`: 400 when the query does not resolve, 404
   * when the inventory is unavailable, otherwise the rows ranked by best net
   * ask (stable, missing as 0) and the total rounded to cents.
   */
  method Get(query: Option<string>, parseUrl: string -> Option<string>, apiKey: Option<string>,
             vanityLookup: string -> Option<string>, inventoryFor: string -> InventoryFetch,
             feedsFor: string -> VenueFeeds, csfloatKey: Option<string>)
    returns (resp: Response)
    ensures var id := ResolveToSteamId64(query.GetOr(""), parseUrl, apiKey, vanityLookup);
      && (id.None? || id.value == "" ==> resp == ErrorResponse(400, UnresolvedMessage))
      && (id.Some? && id.value != "" && !Usable(inventoryFor(id.value)) ==>
            resp == ErrorResponse(404, NoInventoryMessage))
      && (id.Some? && id.value != "" && Usable(inventoryFor(id.value)) ==>
            var fetched := inventoryFor(id.value);
            var rows := ExpectedRows(JoinAll(fetched.assets.value, fetched.descriptions.value), feedsFor, csfloatKey);
            resp == Valuation(SortDesc(rows, RowKey), RoundCents(TotalWorth(rows))))
  {
    var steamid := ResolveToSteamId64(query.GetOr(""), parseUrl, apiKey, vanityLookup);
    if steamid.None? || steamid.value == "" {
      return ErrorResponse(400, UnresolvedMessage);
    }
    var inv := FetchInventory(inventoryFor(steamid.value));
    if inv.None? {
      return ErrorResponse(404, NoInventoryMessage);
    }
    var items, total := ValueInventory(inv.value, feedsFor, csfloatKey);
    return Valuation(items, total);
  }

  // ---------- Properties of the response ----------

  /** Every row's best net ask is non-negative, so the total is too. */
  lemma ValuationTotalNonNegative(inv: seq<InventoryItem>, feedsFor: string -> VenueFeeds, csfloatKey: Option<string>)
    ensures RoundCents(TotalWorth(ExpectedRows(inv, feedsFor, csfloatKey))) >= 0.0
  {
    var rows := ExpectedRows(inv, feedsFor, csfloatKey);
    forall i | 0 <= i < |rows| && BestNet(rows[i].pricing).Some?
      ensures BestNet(rows[i].pricing).value >= 0.0
    {
      var n := Dedup(Names(inv))[i];
      MatrixBestVenue(n, feedsFor(n), csfloatKey, Some(RouteFees()));
    }
    TotalWorthNonNegative(rows);
    RoundCentsMonotone(0.0, TotalWorth(rows));
    RoundCentsOfCents(0);
  }

  /**
   * The items are the rows reordered: ranked by best net ask, highest first,
   * rows with equal keys in first-appearance order, with the same total.
   */
  lemma ItemsAreRankedRows(rows: seq<Row>, v: real)
    ensures multiset(SortDesc(rows, RowKey)) == multiset(rows)
    ensures SortedDesc(SortDesc(rows, RowKey), RowKey)
    ensures WithKey(SortDesc(rows, RowKey), RowKey, v) == WithKey(rows, RowKey, v)
    ensures TotalWorth(SortDesc(rows, RowKey)) == TotalWorth(rows)
  {
    SortIsOrdered(rows, RowKey);
    SortIsStable(rows, RowKey, v);
    TotalWorthOfSorted(rows);
  }

  /** The rows list each distinct name once, and their counts add up to the named items. */
  lemma RowsCoverNamedItems(inv: seq<InventoryItem>, feedsFor: string -> VenueFeeds, csfloatKey: Option<string>)
    ensures var rows := ExpectedRows(inv, feedsFor, csfloatKey);
      && (forall i, j :: 0 <= i < j < |rows| ==> rows[i].name != rows[j].name)
      && (forall n :: n in Names(inv) <==> exists i :: 0 <= i < |rows| && rows[i].name == n)
      && CountSum(Dedup(Names(inv)), multiset(Names(inv))) == |Names(inv)|
  {
    var rows := ExpectedRows(inv, feedsFor, csfloatKey);
    RowNamesAreDedup(inv, rows, feedsFor, csfloatKey);
    CountsAddUp(Names(inv));
  }

  lemma RowNamesAreDedup(inv: seq<InventoryItem>, rows: seq<Row>, feedsFor: string -> VenueFeeds,
                         csfloatKey: Option<string>)
    requires rows == ExpectedRows(inv, feedsFor, csfloatKey)
    ensures forall i, j :: 0 <= i < j < |rows| ==> rows[i].name != rows[j].name
    ensures forall n :: n in Names(inv) <==> exists i :: 0 <= i < |rows| && rows[i].name == n
  {
    var names := Dedup(Names(inv));
    DedupHasNoDuplicates(Names(inv));
    assert forall i :: 0 <= i < |rows| ==> rows[i].name == names[i];
    forall n ensures n in Names(inv) <==> exists i :: 0 <= i < |rows| && rows[i].name == n {
      if n in Names(inv) {
        assert n in names;
        var i :| 0 <= i < |names| && names[i] == n;
        assert rows[i].name == n;
      }
    }
  }
}
