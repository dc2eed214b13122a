/** The flat item records `getHolding` returns, numbered across holdings. */
module ItemAssembly {
  import opened Wrappers
  import opened AlmaDocs
  import opened LoanIndex

  const Available := "Available"
  const NotAvailable := "Not Available"
  const LocationSeparator := " - "

  /** One element of the array `getHolding` returns. `availability` keeps the
      raw `base_status` text; `dueDate` is `None` when the `duedate` key is unset. */
  datatype Item = Item(
    id: string,
    barcode: string,
    number: nat,
    itemId: string,
    availability: string,
    status: string,
    location: string,
    callNumber: string,
    reserve: string,
    dueDate: Option<string>)

  /** The label of an item: "Available" exactly when its base status is truthy. */
  function StatusLabel(availability: string): (text: string)
    ensures text == Available <==> Truthy(availability)
    ensures text == Available || text == NotAvailable
  {
    if Truthy(availability) then Available else NotAvailable
  }

  /** The rendered due date of an item: present only when the loan index has an
      entry for its barcode and that entry is a truthy string. */
  function DueDate(index: map<string, string>, barcode: string, formatDate: string -> string): (d: Option<string>)
    ensures d.Some? <==> barcode in index && Truthy(index[barcode])
    ensures d.Some? ==> d.value == formatDate(index[barcode])
  {
    var dueDate := if barcode in index then index[barcode] else "";
    if Truthy(dueDate) then Some(formatDate(dueDate)) else None
  }

  /** The record built for the item `doc` under running number `number`. */
  function MakeItem(id: string, number: nat, doc: ItemDoc, index: map<string, string>, formatDate: string -> string): (item: Item)
    ensures item.id == id && item.number == number
    ensures item.barcode == doc.barcode && item.itemId == doc.barcode
    ensures item.availability == doc.baseStatus
    ensures item.status == Available <==> Truthy(doc.baseStatus)
    ensures item.status == Available || item.status == NotAvailable
    ensures item.location == doc.libraryDesc + LocationSeparator + doc.locationDesc
    ensures item.callNumber == doc.callNumber
    ensures item.reserve == "0"
    ensures item.dueDate.Some? <==> doc.barcode in index && Truthy(index[doc.barcode])
    ensures item.dueDate.Some? ==> item.dueDate.value == formatDate(index[doc.barcode])
  {
    Item(
      id := id,
      barcode := doc.barcode,
      number := number,
      itemId := doc.barcode,
      availability := doc.baseStatus,
      status := StatusLabel(doc.baseStatus),
      location := doc.libraryDesc + LocationSeparator + doc.locationDesc,
      callNumber := doc.callNumber,
      reserve := "0",
      dueDate := DueDate(index, doc.barcode, formatDate))
  }

  /** The items of all holdings in holding order, then document order. */
  function Flatten<T>(groups: seq<seq<T>>): seq<T> {
    if groups == [] then [] else groups[0] + Flatten(groups[1..])
  }

  /** The inner loop: the items of one holding, numbered on from `count`. */
  function HoldingItems(id: string, docs: seq<ItemDoc>, count: nat, index: map<string, string>, formatDate: string -> string): (items: seq<Item>)
    ensures |items| == |docs|
    ensures forall k :: 0 <= k < |items| ==> items[k] == MakeItem(id, count + k, docs[k], index, formatDate)
  {
    if docs == [] then []
    else [MakeItem(id, count, docs[0], index, formatDate)] + HoldingItems(id, docs[1..], count + 1, index, formatDate)
  }

  /** The outer loop: the items of every holding, the running number carried
      from one holding to the next. */
  function AssembleItems(id: string, groups: seq<seq<ItemDoc>>, count: nat, index: map<string, string>, formatDate: string -> string): (items: seq<Item>)
    ensures |items| == |Flatten(groups)|
    ensures forall k :: 0 <= k < |items| ==> items[k] == MakeItem(id, count + k, Flatten(groups)[k], index, formatDate)
  {
    if groups == [] then []
    else
      HoldingItems(id, groups[0], count, index, formatDate)
        + AssembleItems(id, groups[1..], count + |groups[0]|, index, formatDate)
  }

  lemma {:induction false} FlattenAppend<T>(a: seq<seq<T>>, b: seq<seq<T>>)
    ensures Flatten(a + b) == Flatten(a) + Flatten(b)
  {
    if a == [] {
      assert a + b == b;
    } else {
      assert (a + b)[1..] == a[1..] + b;
      FlattenAppend(a[1..], b);
    }
  }

  /** Numbering from zero, the numbers are exactly the positions 0..n-1, so no
      number is skipped or repeated, and n is the item count of all holdings. */
  lemma NumbersAreDense(id: string, groups: seq<seq<ItemDoc>>, index: map<string, string>, formatDate: string -> string)
    ensures var items := AssembleItems(id, groups, 0, index, formatDate);
      && |items| == |Flatten(groups)|
      && (forall k :: 0 <= k < |items| ==> items[k].number == k)
      && (forall k, l :: 0 <= k < |items| && 0 <= l < |items| && items[k].number == items[l].number ==> k == l)
  {
  }

  /** Item `j` of holding `g` gets the number that follows all items of the
      earlier holdings, so holdings keep their order and items keep theirs. */
  lemma ItemPosition(id: string, groups: seq<seq<ItemDoc>>, g: nat, j: nat, index: map<string, string>, formatDate: string -> string)
    requires g < |groups| && j < |groups[g]|
    ensures var k := |Flatten(groups[..g])| + j;
      && k < |Flatten(groups[..g + 1])|
      && k < |AssembleItems(id, groups, 0, index, formatDate)|
      && AssembleItems(id, groups, 0, index, formatDate)[k] == MakeItem(id, k, groups[g][j], index, formatDate)
  {
    assert groups == groups[..g] + ([groups[g]] + groups[g + 1..]);
    FlattenAppend(groups[..g], [groups[g]] + groups[g + 1..]);
    assert groups[..g + 1] == groups[..g] + [groups[g]];
    FlattenAppend(groups[..g], [groups[g]]);
    assert Flatten([groups[g]]) == groups[g] by {
      assert [groups[g]][1..] == [];
    }
  }

  /** The loan join: an item's due date comes from the last loan carrying its
      exact barcode, and an item whose barcode no loan carries has none. */
  lemma DueDateFromLastLoan(loans: seq<Loan>, id: string, number: nat, doc: ItemDoc, formatDate: string -> string)
    ensures var item := MakeItem(id, number, doc, BuildLoanIndex(loans), formatDate);
      match LastLoanFor(loans, doc.barcode)
      case None => item.dueDate == None
      case Some(i) =>
        item.dueDate == if Truthy(loans[i].dueDate) then Some(formatDate(loans[i].dueDate)) else None
  {
  }
}
