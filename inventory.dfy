/**
 * `fetchInventory` (lib/steam.ts): joins the assets of a Steam inventory
 * response to their descriptions on `classid_instanceid` and returns one
 * item per asset. The HTTP request is left out; its decoded response is
 * the input.
 */
module Inventory {
  import opened Common

  /** One owned copy: which class and instance it is. */
  datatype Asset = Asset(assetid: string, classid: string, instanceid: Option<string>)

  /** What Steam says about a class and instance of item. */
  datatype Description = Description(
    classid: string,
    instanceid: Option<string>,
    name: Option<string>,
    marketName: Option<string>,
    marketHashName: Option<string>,
    iconUrl: Option<string>,
    iconUrlLarge: Option<string>)

  /** An asset with the naming and icon fields of its description (absent when it has none). */
  datatype InventoryItem = InventoryItem(
    assetid: string,
    classid: string,
    instanceid: Option<string>,
    name: Option<string>,
    marketName: Option<string>,
    marketHashName: Option<string>,
    iconUrl: Option<string>,
    iconUrlLarge: Option<string>)

  /**
   * The decoded response: a non-success status, or a body whose `assets`
   * and `descriptions` are arrays (`Some`) or something else (`None`,
   * which also stands for a null body).
   */
  datatype InventoryFetch =
    | InventoryNotOk
    | InventoryBody(assets: Option<seq<Asset>>, descriptions: Option<seq<Description>>)

  /** `${classid}_${instanceid || '0'}`: an absent or empty instance id reads as "0". */
  function JoinKey(classid: string, instanceid: Option<string>): string {
    classid + "_" + (if instanceid.None? || instanceid.value == "" then "0" else instanceid.value)
  }

  /** A key is the class id, an underscore, then the instance id or "0" when it is absent or empty. */
  lemma JoinKeyParts(classid: string, instanceid: Option<string>)
    ensures var k := JoinKey(classid, instanceid);
      && |k| > |classid| && k[..|classid|] == classid && k[|classid|] == '_'
      && (instanceid.None? || instanceid == Some("") ==> k[|classid| + 1..] == "0")
      && (instanceid.Some? && instanceid.value != "" ==> k[|classid| + 1..] == instanceid.value)
  {
  }

  function DescKey(d: Description): string {
    JoinKey(d.classid, d.instanceid)
  }

  function AssetKey(a: Asset): string {
    JoinKey(a.classid, a.instanceid)
  }

  /** The position of the last description with key `k`: the one `Map.set` leaves in place. */
  function LastWithKey(ds: seq<Description>, k: string): (r: Option<nat>)
    ensures r.None? <==> forall i :: 0 <= i < |ds| ==> DescKey(ds[i]) != k
    ensures r.Some? ==> r.value < |ds| && DescKey(ds[r.value]) == k
    ensures r.Some? ==> forall i :: r.value < i < |ds| ==> DescKey(ds[i]) != k
  {
    if ds == [] then None
    else if DescKey(ds[|ds| - 1]) == k then Some(|ds| - 1)
    else LastWithKey(ds[..|ds| - 1], k)
  }

  /** The description an asset is joined to, if any. */
  function MatchFor(ds: seq<Description>, a: Asset): Option<Description> {
    match LastWithKey(ds, AssetKey(a))
    case None => None
    case Some(i) => Some(ds[i])
  }

  /** One output item: the asset's ids, and the description's fields or nothing. */
  function Join(a: Asset, d: Option<Description>): (it: InventoryItem)
    ensures it.assetid == a.assetid && it.classid == a.classid && it.instanceid == a.instanceid
    ensures d.None? ==> it.name.None? && it.marketName.None? && it.marketHashName.None?
                        && it.iconUrl.None? && it.iconUrlLarge.None?
    ensures d.Some? ==> it.name == d.value.name && it.marketName == d.value.marketName
                        && it.marketHashName == d.value.marketHashName
                        && it.iconUrl == d.value.iconUrl && it.iconUrlLarge == d.value.iconUrlLarge
  {
    match d
    case None => InventoryItem(a.assetid, a.classid, a.instanceid, None, None, None, None, None)
    case Some(d) =>
      InventoryItem(a.assetid, a.classid, a.instanceid, d.name, d.marketName, d.marketHashName,
                    d.iconUrl, d.iconUrlLarge)
  }

  /** The items `fetchInventory` returns for the given arrays: one per asset, in asset order. */
  function JoinAll(assets: seq<Asset>, ds: seq<Description>): (items: seq<InventoryItem>)
    ensures |items| == |assets|
    ensures forall i :: 0 <= i < |items| ==> items[i] == Join(assets[i], MatchFor(ds, assets[i]))
  {
    seq(|assets|, i requires 0 <= i < |assets| => Join(assets[i], MatchFor(ds, assets[i])))
  }

  /** Whether the response yields an inventory at all. */
  predicate Usable(resp: InventoryFetch) {
    resp.InventoryBody? && resp.assets.Some? && resp.descriptions.Some?
  }

  /**
   * The `descMap` loop of `fetchInventory`: every key of a description maps
   * to the last description with that key.
   */
  method IndexDescriptions(descs: seq<Description>) returns (descMap: map<string, Description>)
    ensures forall k :: k in descMap <==> LastWithKey(descs, k).Some?
    ensures forall k :: k in descMap ==> descMap[k] == descs[LastWithKey(descs, k).value]
  {
    descMap := map[];
    for i := 0 to |descs|
      invariant forall k :: k in descMap <==> LastWithKey(descs[..i], k).Some?
      invariant forall k :: k in descMap ==> descMap[k] == descs[LastWithKey(descs[..i], k).value]
    {
      assert descs[..i + 1][..i] == descs[..i];
      descMap := descMap[DescKey(descs[i]) := descs[i]];
    }
    assert descs[..|descs|] == descs;
  }

  /**
   * `fetchInventory`: null unless the response is ok with both arrays;
   * otherwise one item per asset, in asset order, joined to the last
   * description with its key.
   */
  method FetchInventory(resp: InventoryFetch) returns (items: Option<seq<InventoryItem>>)
    ensures items.None? <==> !Usable(resp)
    ensures items.Some? ==> items.value == JoinAll(resp.assets.value, resp.descriptions.value)
  {
    if !Usable(resp) {
      return None;
    }
    var assets, descs := resp.assets.value, resp.descriptions.value;
    var descMap := IndexDescriptions(descs);

    var out: seq<InventoryItem> := [];
    for i := 0 to |assets|
      invariant |out| == i
      invariant forall j :: 0 <= j < i ==> out[j] == Join(assets[j], MatchFor(descs, assets[j]))
    {
      var k := AssetKey(assets[i]);
      var d := if k in descMap then Some(descMap[k]) else None;
      out := out + [Join(assets[i], d)];
    }
    assert out == JoinAll(assets, descs);
    return Some(out);
  }

  // ---------- Properties of the join ----------

  /** A later description with the same key replaces an earlier one. */
  lemma LaterDescriptionWins(ds: seq<Description>, d: Description, a: Asset)
    requires DescKey(d) == AssetKey(a)
    ensures MatchFor(ds + [d], a) == Some(d)
  {
  }

  /** Descriptions with other keys do not affect an asset's match. */
  lemma OtherKeysIrrelevant(ds: seq<Description>, d: Description, a: Asset)
    requires DescKey(d) != AssetKey(a)
    ensures MatchFor(ds + [d], a) == MatchFor(ds, a)
  {
    assert (ds + [d])[..|ds|] == ds;
  }

  /** An asset with no description of its key keeps only its ids. */
  lemma UnmatchedAssetHasNoName(ds: seq<Description>, a: Asset)
    requires forall i :: 0 <= i < |ds| ==> DescKey(ds[i]) != AssetKey(a)
    ensures var it := Join(a, MatchFor(ds, a));
      it.name.None? && it.marketName.None? && it.marketHashName.None? && it.iconUrl.None?
  {
  }

  /** A missing instance id, an empty one and "0" join alike. */
  lemma MissingInstanceIsZero(classid: string)
    ensures JoinKey(classid, None) == JoinKey(classid, Some("")) == JoinKey(classid, Some("0"))
  {
  }
}
