/** The process-local store of generated assets: a list trimmed in blocks against its full history. */
module AssetStore {
  import opened Prelude

  datatype Asset = Asset(id: int, tenant: string, content: string)

  /** What the record builder produced; None stands for its exception. */
  datatype Draft = Draft(id: int, tenant: string, content: string)

  datatype Assets = Assets(list: seq<Asset>, nextId: int)

  const FRESH := Assets([], 1)
  const MAX_ASSETS := 2000
  const TRIM_COUNT := 500

  /** The id is taken before the record is built, so a failing builder leaves a gap. The builder sees the
      id; whatever id its record carries is overwritten. */
  function Append(s: Assets, draft: Option<Draft>): Assets {
    match draft
    case None => s.(nextId := s.nextId + 1)
    case Some(d) =>
      var grown := s.list + [Asset(s.nextId, d.tenant, d.content)];
      Assets(if |grown| > MAX_ASSETS then grown[TRIM_COUNT..] else grown, s.nextId + 1)
  }

  function Find(list: seq<Asset>, id: int, tenant: string): Option<Asset> {
    if list == [] then None
    else if list[0].id == id && list[0].tenant == tenant then Some(list[0])
    else Find(list[1..], id, tenant)
  }

  function After(drafts: seq<Option<Draft>>): Assets {
    if drafts == [] then FRESH else Append(After(drafts[..|drafts| - 1]), drafts[|drafts| - 1])
  }

  /** Everything ever appended. */
  ghost function History(drafts: seq<Option<Draft>>): seq<Asset> {
    if drafts == [] then []
    else
      var past, last := drafts[..|drafts| - 1], drafts[|drafts| - 1];
      match last
      case None => History(past)
      case Some(d) => History(past) + [Asset(After(past).nextId, d.tenant, d.content)]
  }

  ghost predicate Increasing(list: seq<Asset>) {
    forall i, j :: 0 <= i < j < |list| ==> list[i].id < list[j].id
  }

  lemma IncreasingAppend(list: seq<Asset>, asset: Asset)
    requires Increasing(list) && forall i :: 0 <= i < |list| ==> 1 <= list[i].id < asset.id
    requires asset.id >= 1
    ensures Increasing(list + [asset]) && forall i :: 0 <= i < |list + [asset]| ==> 1 <= (list + [asset])[i].id <= asset.id
  {
  }

  lemma {:induction false} HistoryIncreases(drafts: seq<Option<Draft>>)
    ensures Increasing(History(drafts))
    ensures forall i :: 0 <= i < |History(drafts)| ==> 1 <= History(drafts)[i].id < After(drafts).nextId
    ensures After(drafts).nextId == |drafts| + 1
  {
    if drafts == [] {
    } else {
      var past, last := drafts[..|drafts| - 1], drafts[|drafts| - 1];
      HistoryIncreases(past);
      if last.Some? {
        IncreasingAppend(History(past), Asset(After(past).nextId, last.value.tenant, last.value.content));
      }
    }
  }

  /** The list is always a suffix of the history, never above the maximum, and never without the newest
      MAX_ASSETS - TRIM_COUNT + 1 assets. */
  lemma {:induction false} ListIsSuffix(drafts: seq<Option<Draft>>)
    ensures var list, history := After(drafts).list, History(drafts);
            && |list| <= |history| && list == history[|history| - |list|..]
            && |list| <= MAX_ASSETS
            && |list| >= Min(|history|, MAX_ASSETS - TRIM_COUNT + 1)
  {
    if drafts == [] {
    } else {
      var past, last := drafts[..|drafts| - 1], drafts[|drafts| - 1];
      ListIsSuffix(past);
      if last.Some? {
        SuffixGrows(After(past).list, History(past), Asset(After(past).nextId, last.value.tenant, last.value.content));
      }
    }
  }

  lemma SuffixGrows(list: seq<Asset>, history: seq<Asset>, asset: Asset)
    requires |list| <= |history| && list == history[|history| - |list|..]
    ensures list + [asset] == (history + [asset])[|history| - |list|..]
    ensures forall k :: 0 <= k <= |list| + 1 ==> (list + [asset])[k..] == (history + [asset])[|history| - |list| + k..]
  {
  }

  lemma {:induction false} FindSkips(gone: seq<Asset>, kept: seq<Asset>, id: int, tenant: string)
    requires forall i :: 0 <= i < |gone| ==> gone[i].id != id
    ensures Find(gone + kept, id, tenant) == Find(kept, id, tenant)
  {
    if gone == [] {
      assert gone + kept == kept;
    } else {
      assert (gone + kept)[1..] == gone[1..] + kept;
      FindSkips(gone[1..], kept, id, tenant);
    }
  }

  lemma {:induction false} FindNeedsId(list: seq<Asset>, id: int, tenant: string)
    requires forall i :: 0 <= i < |list| ==> list[i].id != id
    ensures Find(list, id, tenant) == None
  {
    if list == [] {
    } else {
      FindNeedsId(list[1..], id, tenant);
    }
  }

  /** A lookup agrees with one in the full history for every id that is still listed, and finds nothing for
      every other id, trimmed or never appended. */
  lemma FindAgrees(drafts: seq<Option<Draft>>, id: int, tenant: string)
    ensures var list := After(drafts).list;
            Find(list, id, tenant)
            == if exists i :: 0 <= i < |list| && list[i].id == id then Find(History(drafts), id, tenant) else None
  {
    var list, history := After(drafts).list, History(drafts);
    HistoryIncreases(drafts);
    ListIsSuffix(drafts);
    if i :| 0 <= i < |list| && list[i].id == id {
      FindInSuffix(history, list, i, tenant);
    } else {
      FindNeedsId(list, id, tenant);
    }
  }

  lemma FindInSuffix(history: seq<Asset>, list: seq<Asset>, i: nat, tenant: string)
    requires Increasing(history) && |list| <= |history| && list == history[|history| - |list|..] && i < |list|
    ensures Find(list, list[i].id, tenant) == Find(history, list[i].id, tenant)
  {
    var gone := history[..|history| - |list|];
    assert history == gone + list;
    assert history[|gone| + i] == list[i];
    FindSkips(gone, list, list[i].id, tenant);
  }

  /** A tenant sees an asset under its id exactly when it is its own. */
  lemma FindIsTenantScoped(drafts: seq<Option<Draft>>, k: nat, tenant: string)
    requires k < |After(drafts).list|
    ensures var asset := After(drafts).list[k];
            Find(After(drafts).list, asset.id, tenant) == if asset.tenant == tenant then Some(asset) else None
  {
    var list, history := After(drafts).list, History(drafts);
    HistoryIncreases(drafts);
    ListIsSuffix(drafts);
    assert forall i :: 0 <= i < |list| ==> list[i] == history[|history| - |list| + i];
    FindByPosition(list, k, tenant);
  }

  lemma {:induction false} FindByPosition(list: seq<Asset>, k: nat, tenant: string)
    requires k < |list| && Increasing(list)
    ensures Find(list, list[k].id, tenant) == if list[k].tenant == tenant then Some(list[k]) else None
  {
    if k == 0 {
      if list[0].tenant != tenant {
        FindNeedsId(list[1..], list[0].id, tenant);
      }
    } else {
      assert list[0].id < list[k].id;
      FindByPosition(list[1..], k - 1, tenant);
    }
  }

  // ---------------------------------------------------------------- a list restored from an earlier process

  predicate Has(asset: Asset, id: int, tenant: string) {
    asset.id == id && asset.tenant == tenant
  }

  /** The position a lookup stops at; |list| when it finds nothing. */
  function FindAt(list: seq<Asset>, id: int, tenant: string): (k: nat)
    ensures k <= |list|
    ensures k < |list| ==> Has(list[k], id, tenant)
    ensures forall i :: 0 <= i < k ==> !Has(list[i], id, tenant)
    ensures Find(list, id, tenant) == if k < |list| then Some(list[k]) else None
  {
    if list == [] || Has(list[0], id, tenant) then 0 else 1 + FindAt(list[1..], id, tenant)
  }

  /** Ids restart at 1 in every process, so the list may hold anything, restored from an earlier one. A new
      asset is what a lookup of its id by its tenant stops at if and only if no earlier listed asset has both;
      otherwise the lookup answers with the earlier one. */
  lemma NewIsFoundIff(s: Assets, d: Draft)
    ensures var list := Append(s, Some(d)).list;
            && list != [] && list[|list| - 1] == Asset(s.nextId, d.tenant, d.content)
            && (FindAt(list, s.nextId, d.tenant) == |list| - 1
                <==> forall i :: 0 <= i < |list| - 1 ==> !Has(list[i], s.nextId, d.tenant))
            && Find(list, s.nextId, d.tenant) == Some(list[FindAt(list, s.nextId, d.tenant)])
  {
    var list := Append(s, Some(d)).list;
    var k := FindAt(list, s.nextId, d.tenant);
    assert Has(list[|list| - 1], s.nextId, d.tenant);
    if i :| 0 <= i < |list| - 1 && Has(list[i], s.nextId, d.tenant) {
      assert k <= i;
    }
  }

  lemma PrefixFindsFirst(list: seq<Asset>, last: Asset, tenant: string)
    requires Find(list, 1, tenant).Some?
    ensures Find(list + [last], 1, tenant) == Find(list, 1, tenant)
  {
    var k, k' := FindAt(list, 1, tenant), FindAt(list + [last], 1, tenant);
    assert (list + [last])[k] == list[k];
    assert k' <= k && (list + [last])[k'] == list[k'];
  }

  /** So over a restored list that still holds the tenant's first asset, a new process's first asset is hidden. */
  lemma RestoredListHides(list: seq<Asset>, d: Draft)
    requires |list| < MAX_ASSETS && Find(list, 1, d.tenant).Some?
    ensures Find(Append(Assets(list, 1), Some(d)).list, 1, d.tenant) == Find(list, 1, d.tenant)
  {
    PrefixFindsFirst(list, Asset(1, d.tenant, d.content), d.tenant);
  }

  /** The assets of one process never hide each other: every append is found at once. */
  lemma NewIsFound(drafts: seq<Option<Draft>>, d: Draft)
    ensures var s := After(drafts);
            Find(After(drafts + [Some(d)]).list, s.nextId, d.tenant) == Some(Asset(s.nextId, d.tenant, d.content))
  {
    var s, all := After(drafts), drafts + [Some(d)];
    assert all[..|all| - 1] == drafts;
    HistoryIncreases(drafts);
    ListIsSuffix(drafts);
    NewIsFoundIff(s, d);
    var list := Append(s, Some(d)).list;
    forall i | 0 <= i < |list| - 1 ensures !Has(list[i], s.nextId, d.tenant) {
      assert list[i] in s.list;
      assert forall a :: a in s.list ==> a in History(drafts);
    }
  }

  // ---------------------------------------------------------------- the object

  class Store {
    var list: seq<Asset>
    var nextId: int

    function State(): Assets
      reads this
    {
      Assets(list, nextId)
    }

    constructor ()
      ensures State() == FRESH
    {
      list, nextId := [], 1;
    }

    method AppendAsset(draft: Option<Draft>) returns (record: Option<Asset>)
      modifies this
      ensures State() == Append(old(State()), draft)
      ensures record == if draft.None? then None else Some(Asset(old(nextId), draft.value.tenant, draft.value.content))
    {
      var assetId := nextId;
      nextId := nextId + 1;
      if draft.None? {
        return None;
      }
      var asset := Asset(assetId, draft.value.tenant, draft.value.content);
      list := list + [asset];
      if |list| > MAX_ASSETS {
        list := list[TRIM_COUNT..];
      }
      return Some(asset);
    }

    method FindAsset(id: int, tenant: string) returns (asset: Option<Asset>)
      ensures asset == Find(list, id, tenant)
    {
      for i := 0 to |list|
        invariant Find(list[i..], id, tenant) == Find(list, id, tenant)
      {
        assert list[i..][1..] == list[i + 1..];
        if list[i].id == id && list[i].tenant == tenant {
          return Some(list[i]);
        }
      }
      return None;
    }
  }
}
