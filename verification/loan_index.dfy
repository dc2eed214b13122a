/** The barcode -> due-date index `getHolding` builds from a loans response. */
module LoanIndex {
  import opened Wrappers
  import opened AlmaDocs

  /** `i` is the position of the last loan in `loans` that carries barcode `b`. */
  ghost predicate IsLastLoanFor(loans: seq<Loan>, b: string, i: int) {
    && 0 <= i < |loans|
    && loans[i].barcode == b
    && forall j :: i < j < |loans| ==> loans[j].barcode != b
  }

  /** The index after assigning `index[barcode] = due date` for every loan in
      order: a later loan with the same barcode overwrites an earlier one. */
  function BuildLoanIndex(loans: seq<Loan>): (index: map<string, string>)
    ensures forall b :: b in index <==> exists i :: 0 <= i < |loans| && loans[i].barcode == b
    ensures forall b, i :: IsLastLoanFor(loans, b, i) ==> b in index && index[b] == loans[i].dueDate
  {
    if loans == [] then map[]
    else
      var earlier := loans[..|loans| - 1];
      var last := loans[|loans| - 1];
      assert forall i :: 0 <= i < |earlier| ==> earlier[i] == loans[i];
      BuildLoanIndex(earlier)[last.barcode := last.dueDate]
  }

  /** Scanning from the end: the position of the last loan carrying `b`. */
  function LastLoanFor(loans: seq<Loan>, b: string): (r: Option<nat>)
    ensures r.Some? ==> IsLastLoanFor(loans, b, r.value)
    ensures r.None? ==> forall i :: 0 <= i < |loans| ==> loans[i].barcode != b
  {
    if loans == [] then None
    else if loans[|loans| - 1].barcode == b then Some(|loans| - 1)
    else
      var earlier := loans[..|loans| - 1];
      assert forall i :: 0 <= i < |earlier| ==> earlier[i] == loans[i];
      LastLoanFor(earlier, b)
  }

  /** The index agrees with a scan from the end: a barcode is indexed exactly
      when some loan carries it, and then under the last such loan's due date. */
  lemma IndexAgreesWithLastLoan(loans: seq<Loan>, b: string)
    ensures b in BuildLoanIndex(loans) <==> LastLoanFor(loans, b).Some?
    ensures b in BuildLoanIndex(loans) ==> BuildLoanIndex(loans)[b] == loans[LastLoanFor(loans, b).value].dueDate
  {
  }
}
