/** The inputs of the Alma driver once its HTTP responses have been parsed:
    configuration, the three shapes of XML view the driver queries, and the
    outside collaborators (URL encoding, fetching, date formatting). */
module AlmaDocs {

  /** PHP's conversion of a string to a boolean: only "" and "0" are false. */
  predicate Truthy(s: string) {
    s != "" && s != "0"
  }

  /** One `item_loan` element of a loans response: its `item_barcode` and
      `due_date` texts (a missing element reads as ""). */
  datatype Loan = Loan(barcode: string, dueDate: string)

  /** One `/items/item` element of an items response, reduced to the fields the
      driver reads: `item_data/barcode`, `item_data/base_status`, the `desc`
      attributes of `item_data/library` and `item_data/location`, and
      `holding_data/call_number`. */
  datatype ItemDoc = ItemDoc(
    barcode: string,
    baseStatus: string,
    libraryDesc: string,
    locationDesc: string,
    callNumber: string)

  /** A response body as the XML parser sees it. A body that is not well-formed
      XML (including the empty body of a failed transfer) makes the parser throw.
      A well-formed body is queried through three views: the `item_loan`
      children of its root, the `/holdings/holding/holding_id` nodes and the
      `/items/item` nodes, each in document order. */
  datatype Document =
    | Malformed
    | Xml(itemLoans: seq<Loan>, holdingIds: seq<string>, items: seq<ItemDoc>)

  /** The `[Alma]` section of the driver's configuration. */
  datatype Config = Config(baseurl: string, apikey: string)

  /** What the driver calls but does not define: PHP's `urlencode`, an HTTP GET
      of a URL followed by parsing its body, and the due-date rendering
      `date('l jS F Y', strtotime(d))`. */
  datatype Env = Env(
    urlencode: string -> string,
    get: string -> Document,
    formatDate: string -> string)
}
