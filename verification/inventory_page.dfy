/** The dashboard's Inventory page: the supply table with its category filter, the low-stock
    badge, the pending cargo list, and the use and resupply dialogs. */
module InventoryPage {
  import opened Wrappers
  import opened Seqs
  import opened ApiCalls

  datatype Supply = Supply(
    id: int, name: string, category: string, quantity: int, minThreshold: int, isLowStock: bool)

  datatype CargoManifest = CargoManifest(id: int, shipName: string, status: string)

  datatype ResupplyRequest = ResupplyRequest(id: int, supplyName: string, quantity: int, status: string)

  /** The three lists `loadData` fetches. */
  datatype InventoryData = InventoryData(
    supplies: seq<Supply>, manifests: seq<CargoManifest>, requests: seq<ResupplyRequest>)

  const Pending: string := "PENDING"
  const LoadFailed: string := "Failed to load inventory data"
  const UnloadFailed: string := "Failed to unload manifest"
  const ConsumeFailed: string := "Failed to consume supply"
  const ResupplyFailed: string := "Failed to request resupply"
  /** The largest quantity the use dialog proposes. */
  const ConsumeDefaultCap: int := 10

  // ---------------------------------------------------------------------------------------
  // Derived values
  // ---------------------------------------------------------------------------------------

  function CategoriesOf(supplies: seq<Supply>): (cs: seq<string>)
    ensures |cs| == |supplies| && forall i :: 0 <= i < |supplies| ==> cs[i] == supplies[i].category
  {
    if supplies == [] then [] else CategoriesOf(supplies[..|supplies| - 1]) + [supplies[|supplies| - 1].category]
  }

  /** `categories`: each category once, in order of first appearance. */
  function Categories(supplies: seq<Supply>): (r: seq<string>)
    ensures forall c :: c in r <==> exists s :: s in supplies && s.category == c
    ensures forall i, j :: 0 <= i < j < |r| ==> r[i] != r[j]
  {
    var cs := CategoriesOf(supplies);
    assert forall c :: c in cs <==> exists s :: s in supplies && s.category == c by {
      forall c ensures c in cs <==> exists s :: s in supplies && s.category == c {
        if c in cs {
          var i :| 0 <= i < |cs| && cs[i] == c;
          assert supplies[i] in supplies;
        }
      }
    }
    Distinct(cs)
  }

  /** The category buttons come in the order the categories first appear in the table. */
  lemma CategoriesInFirstAppearanceOrder(supplies: seq<Supply>, i: nat, j: nat)
    requires i < j < |Categories(supplies)|
    ensures FirstIndex(CategoriesOf(supplies), Categories(supplies)[i]) <
            FirstIndex(CategoriesOf(supplies), Categories(supplies)[j])
  {
    DistinctFirstAppearance(CategoriesOf(supplies), i, j);
  }

  /** A category filter is truthy when present and non-empty. */
  predicate IsChosen(category: Option<string>) {
    category.Some? && category.value != []
  }

  /** `filteredSupplies`: every supply when no category is chosen, otherwise exactly those of
      the chosen category. */
  function FilteredSupplies(supplies: seq<Supply>, selected: Option<string>): (r: seq<Supply>)
    ensures !IsChosen(selected) ==> r == supplies
    ensures IsChosen(selected) ==> forall s :: s in r <==> s in supplies && s.category == selected.value
    ensures IsChosen(selected) ==>
      forall s :: multiset(r)[s] == if s.category == selected.value then multiset(supplies)[s] else 0
  {
    if IsChosen(selected) then
      var r := Filter(supplies, (s: Supply) => s.category == selected.value);
      assert forall s :: multiset(r)[s] == if s.category == selected.value then multiset(supplies)[s] else 0 by {
        forall s {
          FilterMultiplicity(supplies, (s: Supply) => s.category == selected.value, s);
        }
      }
      r
    else supplies
  }

  /** Choosing a category that the table shows never leaves it empty. */
  lemma ChosenCategoryIsNonEmpty(supplies: seq<Supply>, c: string)
    requires c in Categories(supplies)
    ensures FilteredSupplies(supplies, Some(c)) != []
  {
    var s :| s in supplies && s.category == c;
    assert s in FilteredSupplies(supplies, Some(c));
  }

  /** `lowStockCount`: how many supplies are flagged low; the badge shows when it is positive. */
  function LowStockCount(supplies: seq<Supply>): (n: nat)
    ensures n <= |supplies|
    ensures n == 0 <==> forall s :: s in supplies ==> !s.isLowStock
  {
    Count(supplies, (s: Supply) => s.isLowStock)
  }

  /** The badge counts each flagged supply once: the first supply adds one exactly when it is
      flagged, and the empty table counts none. */
  lemma LowStockCountCons(supplies: seq<Supply>)
    requires supplies != []
    ensures LowStockCount(supplies) == LowStockCount(supplies[1..]) + (if supplies[0].isLowStock then 1 else 0)
  {
  }

  /** The badge of a combined table is the sum of the badges of its parts. */
  lemma LowStockCountAppend(front: seq<Supply>, back: seq<Supply>)
    ensures LowStockCount(front + back) == LowStockCount(front) + LowStockCount(back)
  {
    CountAppend(front, back, (s: Supply) => s.isLowStock);
  }

  /** Pending Cargo: the manifests whose status is PENDING, in order. */
  function PendingManifests(manifests: seq<CargoManifest>): (r: seq<CargoManifest>)
    ensures forall m :: m in r <==> m in manifests && m.status == Pending
    ensures forall m :: multiset(r)[m] == if m.status == Pending then multiset(manifests)[m] else 0
  {
    var r := Filter(manifests, (m: CargoManifest) => m.status == Pending);
    assert forall m :: multiset(r)[m] == if m.status == Pending then multiset(manifests)[m] else 0 by {
      forall m {
        FilterMultiplicity(manifests, (m: CargoManifest) => m.status == Pending, m);
      }
    }
    r
  }

  /** The pending list keeps the manifests' order: an earlier stretch of the list is shown
      before a later one. */
  lemma PendingManifestsKeepOrder(front: seq<CargoManifest>, back: seq<CargoManifest>)
    ensures PendingManifests(front + back) == PendingManifests(front) + PendingManifests(back)
  {
    FilterAppend(front, back, (m: CargoManifest) => m.status == Pending);
  }

  /** Whether a supply's Use button is enabled. */
  predicate CanUse(s: Supply) {
    s.quantity != 0
  }

  /** The use dialog's starting quantity: `Math.min(10, supply.quantity)`. */
  function ConsumeDefault(s: Supply): (q: int)
    ensures q <= ConsumeDefaultCap && q <= s.quantity
    ensures q == ConsumeDefaultCap || q == s.quantity
  {
    if s.quantity < ConsumeDefaultCap then s.quantity else ConsumeDefaultCap
  }

  /** The resupply dialog's starting quantity: twice the minimum threshold. */
  function ResupplyDefault(s: Supply): (q: int)
    ensures q == 2 * s.minThreshold
  {
    s.minThreshold * 2
  }

  /** The use dialog's warning: using this much leaves the stock below its minimum. */
  predicate ThresholdWarning(s: Supply, consumeQuantity: int) {
    s.quantity - consumeQuantity < s.minThreshold
  }

  /** At the proposed quantity, the warning shows for a small stock exactly when the supply
      has a positive threshold, and for a larger stock exactly when ten fewer would fall below
      it. */
  lemma DefaultConsumeWarning(s: Supply)
    ensures s.quantity <= ConsumeDefaultCap ==> (ThresholdWarning(s, ConsumeDefault(s)) <==> s.minThreshold > 0)
    ensures s.quantity > ConsumeDefaultCap ==>
      (ThresholdWarning(s, ConsumeDefault(s)) <==> s.quantity - ConsumeDefaultCap < s.minThreshold)
  {
  }

  /** The warning only grows with the quantity used: if it shows for some amount, it shows for
      every larger one. */
  lemma WarningMonotone(s: Supply, q: int, q': int)
    requires q <= q' && ThresholdWarning(s, q)
    ensures ThresholdWarning(s, q')
  {
  }

  // ---------------------------------------------------------------------------------------
  // Page state
  // ---------------------------------------------------------------------------------------

  /** A request the page sends to the inventory API. */
  datatype InventoryRequest =
    | Unload(manifestId: int)
    | Consume(supplyId: int, quantity: int)
    | RequestResupply(supplyId: int, quantity: int)

  class InventoryPageState {
    var supplies: seq<Supply>
    var manifests: seq<CargoManifest>
    var resupplyRequests: seq<ResupplyRequest>
    var loading: bool
    var error: Option<string>
    var selectedCategory: Option<string>
    var consumingSupply: Option<Supply>
    var consumeQuantity: int
    var consumeLoading: bool
    var resupplyingSupply: Option<Supply>
    var resupplyQuantity: int
    var resupplyLoading: bool
    var unloadingManifest: Option<int>

    /** Between events no request is in flight. */
    ghost predicate Valid()
      reads this
    {
      !consumeLoading && !resupplyLoading && unloadingManifest.None?
    }

    /** The freshly mounted page. */
    constructor ()
      ensures Valid()
      ensures supplies == [] && manifests == [] && resupplyRequests == [] && loading && error.None?
      ensures selectedCategory.None? && consumingSupply.None? && resupplyingSupply.None?
      ensures consumeQuantity == 1 && resupplyQuantity == 100
    {
      supplies, manifests, resupplyRequests, loading, error := [], [], [], true, None;
      selectedCategory := None;
      consumingSupply, consumeQuantity, consumeLoading := None, 1, false;
      resupplyingSupply, resupplyQuantity, resupplyLoading := None, 100, false;
      unloadingManifest := None;
    }

    /** `loadData`, with the combined result of the three requests. */
    method LoadData(result: ApiResult<InventoryData>)
      modifies this`supplies, this`manifests, this`resupplyRequests, this`loading, this`error
      ensures !loading
      ensures result.Resolved? ==>
        supplies == result.value.supplies && manifests == result.value.manifests &&
        resupplyRequests == result.value.requests && error.None?
      ensures result.Rejected? ==>
        supplies == old(supplies) && manifests == old(manifests) && resupplyRequests == old(resupplyRequests) &&
        error == Some(ErrorText(result.thrown, LoadFailed))
    {
      loading := true;
      error := None;
      match result {
        case Resolved(data) =>
          supplies := data.supplies;
          manifests := data.manifests;
          resupplyRequests := data.requests;
        case Rejected(thrown) =>
          error := Some(ErrorText(thrown, LoadFailed));
      }
      loading := false;
    }

    /** A click on a category button, or on "All" with `None`. */
    method SelectCategory(category: Option<string>)
      modifies this`selectedCategory
      ensures selectedCategory == category
    {
      selectedCategory := category;
    }

    /** `openConsumeModal`, reached through an enabled Use button. */
    method OpenConsumeModal(s: Supply)
      requires CanUse(s)
      modifies this`consumingSupply, this`consumeQuantity
      ensures consumingSupply == Some(s) && consumeQuantity == ConsumeDefault(s)
    {
      consumingSupply := Some(s);
      consumeQuantity := if s.quantity < ConsumeDefaultCap then s.quantity else ConsumeDefaultCap;
    }

    /** `openResupplyModal`. */
    method OpenResupplyModal(s: Supply)
      modifies this`resupplyingSupply, this`resupplyQuantity
      ensures resupplyingSupply == Some(s) && resupplyQuantity == ResupplyDefault(s)
    {
      resupplyingSupply := Some(s);
      resupplyQuantity := s.minThreshold * 2;
    }

    /** Moving the use dialog's slider. */
    method SetConsumeQuantity(q: int)
      modifies this`consumeQuantity
      ensures consumeQuantity == q
    {
      consumeQuantity := q;
    }

    /** Moving the resupply dialog's slider. */
    method SetResupplyQuantity(q: int)
      modifies this`resupplyQuantity
      ensures resupplyQuantity == q
    {
      resupplyQuantity := q;
    }

    /** The use dialog's Cancel button, disabled while a request is in flight. */
    method CancelConsume()
      requires Valid()
      modifies this`consumingSupply
      ensures consumingSupply.None?
    {
      consumingSupply := None;
    }

    /** The resupply dialog's Cancel button, disabled while a request is in flight. */
    method CancelResupply()
      requires Valid()
      modifies this`resupplyingSupply
      ensures resupplyingSupply.None?
    {
      resupplyingSupply := None;
    }

    /** Whether the use dialog currently shows the below-threshold warning. */
    predicate ShowsThresholdWarning()
      reads this
    {
      consumingSupply.Some? && ThresholdWarning(consumingSupply.value, consumeQuantity)
    }

    /** `handleUnload`, with the results of the unload request and, after a success, of the
        reload. */
    method HandleUnload(manifestId: int, unload: ApiResult<()>, reload: ApiResult<InventoryData>)
      returns (sent: InventoryRequest)
      requires Valid()
      modifies this`supplies, this`manifests, this`resupplyRequests, this`loading, this`error, this`unloadingManifest
      ensures Valid()
      ensures sent == Unload(manifestId)
      ensures unload.Resolved? ==>
        (!loading &&
         (reload.Resolved? ==> supplies == reload.value.supplies && manifests == reload.value.manifests &&
                               resupplyRequests == reload.value.requests && error.None?) &&
         (reload.Rejected? ==> supplies == old(supplies) && manifests == old(manifests) &&
                               resupplyRequests == old(resupplyRequests) &&
                               error == Some(ErrorText(reload.thrown, LoadFailed))))
      ensures unload.Rejected? ==>
        supplies == old(supplies) && manifests == old(manifests) && resupplyRequests == old(resupplyRequests) &&
        loading == old(loading) && error == Some(ErrorText(unload.thrown, UnloadFailed))
    {
      unloadingManifest := Some(manifestId);
      error := None;
      sent := Unload(manifestId);
      match unload {
        case Resolved(_) =>
          LoadData(reload);
        case Rejected(thrown) =>
          error := Some(ErrorText(thrown, UnloadFailed));
      }
      unloadingManifest := None;
    }

    /** `handleConsume`, with the results of the consume request and, after a success, of the
        reload. */
    method HandleConsume(consume: ApiResult<()>, reload: ApiResult<InventoryData>)
      returns (sent: Option<InventoryRequest>)
      requires Valid()
      modifies this`supplies, this`manifests, this`resupplyRequests, this`loading, this`error
      modifies this`consumingSupply, this`consumeLoading
      ensures Valid()
      ensures old(consumingSupply).None? ==> sent.None? && unchanged(this)
      ensures old(consumingSupply).Some? ==> sent == Some(Consume(old(consumingSupply).value.id, old(consumeQuantity)))
      // success closes the dialog and reloads
      ensures sent.Some? && consume.Resolved? ==>
        (consumingSupply.None? && !loading &&
         (reload.Resolved? ==> supplies == reload.value.supplies && manifests == reload.value.manifests &&
                               resupplyRequests == reload.value.requests && error.None?) &&
         (reload.Rejected? ==> supplies == old(supplies) && manifests == old(manifests) &&
                               resupplyRequests == old(resupplyRequests) &&
                               error == Some(ErrorText(reload.thrown, LoadFailed))))
      // failure keeps the dialog open and shows the error on the page
      ensures sent.Some? && consume.Rejected? ==>
        consumingSupply == old(consumingSupply) && supplies == old(supplies) && manifests == old(manifests) &&
        resupplyRequests == old(resupplyRequests) && loading == old(loading) &&
        error == Some(ErrorText(consume.thrown, ConsumeFailed))
    {
      if consumingSupply.None? {
        return None;
      }
      sent := Some(Consume(consumingSupply.value.id, consumeQuantity));
      consumeLoading := true;
      error := None;
      match consume {
        case Resolved(_) =>
          consumingSupply := None;
          LoadData(reload);
        case Rejected(thrown) =>
          error := Some(ErrorText(thrown, ConsumeFailed));
      }
      consumeLoading := false;
    }

    /** `handleResupply`, with the results of the resupply request and, after a success, of
        the reload. */
    method HandleResupply(resupply: ApiResult<()>, reload: ApiResult<InventoryData>)
      returns (sent: Option<InventoryRequest>)
      requires Valid()
      modifies this`supplies, this`manifests, this`resupplyRequests, this`loading, this`error
      modifies this`resupplyingSupply, this`resupplyLoading
      ensures Valid()
      ensures old(resupplyingSupply).None? ==> sent.None? && unchanged(this)
      ensures old(resupplyingSupply).Some? ==>
        sent == Some(RequestResupply(old(resupplyingSupply).value.id, old(resupplyQuantity)))
      // success closes the dialog and reloads
      ensures sent.Some? && resupply.Resolved? ==>
        (resupplyingSupply.None? && !loading &&
         (reload.Resolved? ==> supplies == reload.value.supplies && manifests == reload.value.manifests &&
                               resupplyRequests == reload.value.requests && error.None?) &&
         (reload.Rejected? ==> supplies == old(supplies) && manifests == old(manifests) &&
                               resupplyRequests == old(resupplyRequests) &&
                               error == Some(ErrorText(reload.thrown, LoadFailed))))
      // failure keeps the dialog open and shows the error on the page
      ensures sent.Some? && resupply.Rejected? ==>
        resupplyingSupply == old(resupplyingSupply) && supplies == old(supplies) && manifests == old(manifests) &&
        resupplyRequests == old(resupplyRequests) && loading == old(loading) &&
        error == Some(ErrorText(resupply.thrown, ResupplyFailed))
    {
      if resupplyingSupply.None? {
        return None;
      }
      sent := Some(RequestResupply(resupplyingSupply.value.id, resupplyQuantity));
      resupplyLoading := true;
      error := None;
      match resupply {
        case Resolved(_) =>
          resupplyingSupply := None;
          LoadData(reload);
        case Rejected(thrown) =>
          error := Some(ErrorText(thrown, ResupplyFailed));
      }
      resupplyLoading := false;
    }
  }
}
