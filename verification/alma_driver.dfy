/** The driver's entry points: `getHolding`, `getStatus` and `getStatuses`. */
module AlmaDriver {
  import opened Wrappers
  import opened AlmaDocs
  import opened AlmaUrls
  import opened LoanIndex
  import opened ItemAssembly

  /** PHP raises one and the same exception for any response that does not
      parse as XML; these labels record which parse threw, and for an items
      response, the holding whose iteration was running. */
  datatype Error = MalformedLoans | MalformedHoldings | MalformedItems(holdingId: string)

  function LoansDocument(cfg: Config, id: string, env: Env): Document {
    env.get(LoansUrl(cfg, env.urlencode, id))
  }

  function HoldingsDocument(cfg: Config, id: string, env: Env): Document {
    env.get(HoldingsUrl(cfg, env.urlencode, id))
  }

  function ItemsDocument(cfg: Config, id: string, hid: string, env: Env): Document {
    env.get(ItemsUrl(cfg, env.urlencode, id, hid))
  }

  /** The items response of every holding, parsed in holding order; the first
      one that does not parse aborts the call. */
  function FetchItemGroups(cfg: Config, id: string, hids: seq<string>, env: Env): (r: Result<seq<seq<ItemDoc>>, Error>)
    ensures r.Success? <==> forall k :: 0 <= k < |hids| ==> ItemsDocument(cfg, id, hids[k], env).Xml?
    ensures r.Success? ==>
      && |r.value| == |hids|
      && forall k :: 0 <= k < |hids| ==> r.value[k] == ItemsDocument(cfg, id, hids[k], env).items
    ensures r.Failure? ==> exists k ::
      && 0 <= k < |hids|
      && ItemsDocument(cfg, id, hids[k], env).Malformed?
      && (forall j :: 0 <= j < k ==> ItemsDocument(cfg, id, hids[j], env).Xml?)
      && r.error == MalformedItems(hids[k])
  {
    if hids == [] then Success([])
    else
      match ItemsDocument(cfg, id, hids[0], env)
      case Malformed => Failure(MalformedItems(hids[0]))
      case Xml(_, _, items) =>
        match FetchItemGroups(cfg, id, hids[1..], env)
        case Failure(e) =>
          ghost var k :| 0 <= k < |hids[1..]| && ItemsDocument(cfg, id, hids[1..][k], env).Malformed?
            && (forall j :: 0 <= j < k ==> ItemsDocument(cfg, id, hids[1..][j], env).Xml?)
            && e == MalformedItems(hids[1..][k]);
          assert forall j :: 0 <= j < k + 1 ==> ItemsDocument(cfg, id, hids[j], env).Xml? by {
            forall j | 0 <= j < k + 1 ensures ItemsDocument(cfg, id, hids[j], env).Xml? {
              if j > 0 { assert hids[j] == hids[1..][j - 1]; }
            }
          }
          Failure(e)
        case Success(rest) => Success([items] + rest)
  }

  /** `getHolding`: every item of every holding of record `id`, numbered 0..n-1
      in holding order then document order, joined with the loans by barcode.
      A loans, holdings or items response that is not XML raises an exception;
      they are parsed in that order. */
  function GetHolding(cfg: Config, id: string, env: Env): (r: Result<seq<Item>, Error>)
    ensures LoansDocument(cfg, id, env).Malformed? ==> r == Failure(MalformedLoans)
    ensures LoansDocument(cfg, id, env).Xml? && HoldingsDocument(cfg, id, env).Malformed? ==>
      r == Failure(MalformedHoldings)
    ensures LoansDocument(cfg, id, env).Xml? && HoldingsDocument(cfg, id, env).Xml? ==>
      var hids := HoldingsDocument(cfg, id, env).holdingIds;
      && (r.Success? <==> forall k :: 0 <= k < |hids| ==> ItemsDocument(cfg, id, hids[k], env).Xml?)
      && (r.Failure? ==> exists k :: 0 <= k < |hids| && r.error == MalformedItems(hids[k])
                                     && ItemsDocument(cfg, id, hids[k], env).Malformed?)
    ensures r.Success? ==>
      var groups := FetchItemGroups(cfg, id, HoldingsDocument(cfg, id, env).holdingIds, env).value;
      var index := BuildLoanIndex(LoansDocument(cfg, id, env).itemLoans);
      && |r.value| == |Flatten(groups)|
      && forall k :: 0 <= k < |r.value| ==> r.value[k] == MakeItem(id, k, Flatten(groups)[k], index, env.formatDate)
  {
    var loansDoc := LoansDocument(cfg, id, env);
    if loansDoc.Malformed? then Failure(MalformedLoans)
    else
      var index := BuildLoanIndex(loansDoc.itemLoans);
      var holdingsDoc := HoldingsDocument(cfg, id, env);
      if holdingsDoc.Malformed? then Failure(MalformedHoldings)
      else
        var groups :- FetchItemGroups(cfg, id, holdingsDoc.holdingIds, env);
        Success(AssembleItems(id, groups, 0, index, env.formatDate))
  }

  /** `getStatus` as written: the loop binds each entry BY VALUE, so the label it
      computes is written to a copy and the holding list comes back unchanged. */
  method GetStatus(cfg: Config, id: string, env: Env) returns (r: Result<seq<Item>, Error>)
    ensures r == GetHolding(cfg, id, env)
    ensures r.Success? ==> forall k :: 0 <= k < |r.value| ==>
      r.value[k].status == Available || r.value[k].status == NotAvailable
  {
    var statuses :- GetHolding(cfg, id, env);
    for i := 0 to |statuses| {
      var status := statuses[i];
      status := status.(status := StatusWord(status.availability));
    }
    return Success(statuses);
  }

  /** The label the `getStatus` loop computes: "available" when the availability
      equals 1. */
  function StatusWord(availability: string): (word: string)
    ensures word == "available" <==> availability == "1"
    ensures word == "available" || word == "unavailable"
  {
    if availability == "1" then "available" else "unavailable"
  }

  /** `getStatus` as evidently intended, with the loop binding each entry by
      reference: every entry is relabelled and nothing else changes. */
  method GetStatusByReference(cfg: Config, id: string, env: Env) returns (r: Result<seq<Item>, Error>)
    ensures GetHolding(cfg, id, env).Failure? ==> r == GetHolding(cfg, id, env)
    ensures GetHolding(cfg, id, env).Success? ==>
      var holding := GetHolding(cfg, id, env).value;
      && r.Success?
      && |r.value| == |holding|
      && forall k :: 0 <= k < |holding| ==>
           r.value[k] == holding[k].(status := StatusWord(holding[k].availability))
  {
    var holding :- GetHolding(cfg, id, env);
    var statuses := holding;
    for i := 0 to |statuses|
      invariant |statuses| == |holding|
      invariant forall k :: 0 <= k < i ==>
        statuses[k] == holding[k].(status := StatusWord(holding[k].availability))
      invariant forall k :: i <= k < |statuses| ==> statuses[k] == holding[k]
    {
      statuses := statuses[i := statuses[i].(status := StatusWord(statuses[i].availability))];
    }
    return Success(statuses);
  }

  /** The by-value loop never relabels: every entry `getStatus` returns still
      carries the "Available"/"Not Available" label, never the word the loop
      computed for it. */
  lemma ByValueLoopKeepsLabels(cfg: Config, id: string, env: Env)
    requires GetHolding(cfg, id, env).Success?
    ensures var items := GetHolding(cfg, id, env).value;
      forall k :: 0 <= k < |items| ==> items[k].status != StatusWord(items[k].availability)
  {
  }

  /** `getStatuses`: the status of every id, in the order of `ids`. Each
      lookup sends its own requests, so the i-th lookup sees the server as it is
      then, `envAt(i)`. The first id whose lookup raises aborts the batch with
      that exception. */
  method GetStatuses(cfg: Config, ids: seq<string>, envAt: nat -> Env) returns (r: Result<seq<seq<Item>>, Error>)
    ensures r.Success? <==> forall i :: 0 <= i < |ids| ==> GetHolding(cfg, ids[i], envAt(i)).Success?
    ensures r.Success? ==>
      && |r.value| == |ids|
      && forall i :: 0 <= i < |ids| ==> r.value[i] == GetHolding(cfg, ids[i], envAt(i)).value
    ensures r.Failure? ==> exists i ::
      && 0 <= i < |ids|
      && GetHolding(cfg, ids[i], envAt(i)).Failure?
      && (forall j :: 0 <= j < i ==> GetHolding(cfg, ids[j], envAt(j)).Success?)
      && r.error == GetHolding(cfg, ids[i], envAt(i)).error
  {
    var items: seq<seq<Item>> := [];
    for i := 0 to |ids|
      invariant |items| == i
      invariant forall j :: 0 <= j < i ==>
        GetHolding(cfg, ids[j], envAt(j)).Success? && items[j] == GetHolding(cfg, ids[j], envAt(j)).value
    {
      var status := GetStatus(cfg, ids[i], envAt(i));
      if status.Failure? {
        return Failure(status.error);
      }
      items := items + [status.value];
    }
    return Success(items);
  }
}
