/** A worked record: "990012" has holdings H1 (items B1 available, B2 on loan)
    and H2 (item B3 available); the only loan is B2's. */
module AlmaExamples {
  import opened Wrappers
  import opened AlmaDocs
  import opened AlmaUrls
  import opened LoanIndex
  import opened ItemAssembly
  import opened AlmaDriver

  const Cfg := Config("https://alma.example", "KEY")

  function Identity(s: string): string { s }

  function Server(url: string): Document {
    if url == LoansAt then
      Xml([Loan("B2", "2024-05-01")], [], [])
    else if url == HoldingsAt then
      Xml([], ["H1", "H2"], [])
    else if url == ItemsAtH1 then
      Xml([], [], [ItemDoc("B1", "1", "Main", "Stacks", "QA76"), ItemDoc("B2", "0", "Main", "Stacks", "QA76")])
    else if url == ItemsAtH2 then
      Xml([], [], [ItemDoc("B3", "1", "Annex", "Store", "QA77")])
    else
      Malformed
  }

  const Groups := [
    [ItemDoc("B1", "1", "Main", "Stacks", "QA76"), ItemDoc("B2", "0", "Main", "Stacks", "QA76")],
    [ItemDoc("B3", "1", "Annex", "Store", "QA77")]]

  /** The URLs the example serves, one per request of the record. */
  const LoansAt := LoansUrl(Cfg, Identity, "990012")
  const HoldingsAt := HoldingsUrl(Cfg, Identity, "990012")
  const ItemsAtH1 := ItemsUrl(Cfg, Identity, "990012", "H1")
  const ItemsAtH2 := ItemsUrl(Cfg, Identity, "990012", "H2")

  /** The four URLs of the example are pairwise distinct. */
  lemma ExampleUrlsDistinct()
    ensures LoansAt != HoldingsAt && LoansAt != ItemsAtH1 && LoansAt != ItemsAtH2
    ensures HoldingsAt != ItemsAtH1 && HoldingsAt != ItemsAtH2 && ItemsAtH1 != ItemsAtH2
  {
    assert '/' !in Identity("990012");
    LoansNotHoldingsUrl(Cfg, Identity, "990012", "990012");
    LoansNotItemsUrl(Cfg, Identity, "990012", "990012", "H1");
    LoansNotItemsUrl(Cfg, Identity, "990012", "990012", "H2");
    HoldingsNotItemsUrl(Cfg, Identity, "990012", "990012", "H1");
    HoldingsNotItemsUrl(Cfg, Identity, "990012", "990012", "H2");
    assert SplitItemsUrl(Cfg, ItemsAtH1) != SplitItemsUrl(Cfg, ItemsAtH2);
  }

  /** The example's three kinds of response parse as given. */
  lemma ExampleDocuments(env: Env)
    requires env.urlencode == Identity && env.get == Server
    ensures LoansDocument(Cfg, "990012", env) == Xml([Loan("B2", "2024-05-01")], [], [])
    ensures HoldingsDocument(Cfg, "990012", env) == Xml([], ["H1", "H2"], [])
    ensures FetchItemGroups(Cfg, "990012", ["H1", "H2"], env) == Success(Groups)
  {
    ExampleUrlsDistinct();
    var hids := ["H1", "H2"];
    assert ItemsDocument(Cfg, "990012", "H1", env).items == Groups[0];
    assert ItemsDocument(Cfg, "990012", "H2", env).items == Groups[1];
    assert forall k :: 0 <= k < |hids| ==> ItemsDocument(Cfg, "990012", hids[k], env).Xml?;
    var fetched := FetchItemGroups(Cfg, "990012", hids, env);
    assert fetched.value[0] == Groups[0] && fetched.value[1] == Groups[1];
    assert |fetched.value| == |Groups| == 2;
    assert fetched.value == Groups;
  }

  /** With the example's responses, `getHolding` assembles the two holdings'
      items against an index holding B2's loan. */
  lemma ExampleHolding(formatDate: string -> string)
    ensures GetHolding(Cfg, "990012", Env(Identity, Server, formatDate))
      == Success(AssembleItems("990012", Groups, 0, map["B2" := "2024-05-01"], formatDate))
  {
    var env := Env(Identity, Server, formatDate);
    ExampleDocuments(env);
    assert BuildLoanIndex([Loan("B2", "2024-05-01")]) == map["B2" := "2024-05-01"];
  }

  /** The assembled records of the example's two holdings. */
  lemma ExampleItems(formatDate: string -> string)
    ensures var items := AssembleItems("990012", Groups, 0, map["B2" := "2024-05-01"], formatDate);
      && |items| == 3
      && items[0].barcode == "B1" && items[0].number == 0 && items[0].dueDate == None
      && items[0].status == Available
      && items[1].barcode == "B2" && items[1].number == 1
      && items[1].dueDate == Some(formatDate("2024-05-01"))
      && items[1].status == NotAvailable
      && items[2].barcode == "B3" && items[2].number == 2 && items[2].dueDate == None
      && items[2].location == "Annex - Store"
  {
    var index := map["B2" := "2024-05-01"];
    var flat := Flatten(Groups);
    assert flat == Groups[0] + Groups[1] by {
      assert Groups[1..][1..] == [];
    }
    var items := AssembleItems("990012", Groups, 0, index, formatDate);
    assert items[0] == MakeItem("990012", 0, flat[0], index, formatDate);
    assert items[1] == MakeItem("990012", 1, flat[1], index, formatDate);
    assert items[2] == MakeItem("990012", 2, flat[2], index, formatDate);
  }

  /** Three items numbered 0, 1, 2 in holding order; only B2 has a due date,
      whatever the date rendering is. */
  lemma Record990012(formatDate: string -> string)
    ensures var r := GetHolding(Cfg, "990012", Env(Identity, Server, formatDate));
      && r.Success?
      && |r.value| == 3
      && r.value[0].barcode == "B1" && r.value[0].number == 0 && r.value[0].dueDate == None
      && r.value[1].barcode == "B2" && r.value[1].number == 1
      && r.value[1].dueDate == Some(formatDate("2024-05-01"))
      && r.value[1].status == NotAvailable
      && r.value[2].barcode == "B3" && r.value[2].number == 2 && r.value[2].dueDate == None
      && r.value[2].location == "Annex - Store"
  {
    ExampleHolding(formatDate);
    ExampleItems(formatDate);
  }

  /** The input that shows the `getStatus` discrepancy: B1's base status is "1",
      so the loop computes "available", yet the entry returned keeps "Available". */
  lemma StatusWordDiscarded(formatDate: string -> string)
    ensures var r := GetHolding(Cfg, "990012", Env(Identity, Server, formatDate));
      && r.Success?
      && r.value[0].status == Available
      && StatusWord(r.value[0].availability) == "available"
  {
    ExampleHolding(formatDate);
    ExampleItems(formatDate);
    assert GetHolding(Cfg, "990012", Env(Identity, Server, formatDate)).value[0].availability == "1";
  }
}
