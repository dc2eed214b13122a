# Alma ILS driver: holdings assembly, in Dafny

This project models the core of VuFind's Alma ILS driver
(`module/VuFind/src/VuFind/ILS/Driver/Alma.php`). For one bibliographic record
(the MMS id), `getHolding`:

1. composes the loans and holdings URLs of the Alma REST API;
2. fetches both, and builds a barcode -> due-date index from the loans, where
   a later loan with the same barcode overwrites an earlier one;
3. reads the holding ids and composes one items URL per holding;
4. fetches every items response. It walks the holdings in the order they
   were found, and their items in document order. For each item it builds a
   flat record: a running `number`, an "Available"/"Not Available" label, a
   "library - location" string, the call number, `reserve` "0", and a
   `duedate` when the item's exact barcode has a truthy entry in the loan
   index.

`getStatus` returns `getHolding`'s list. `getStatuses` maps `getStatus` over
a list of ids, keeping their order.

Parsed responses are input datatypes (`AlmaDocs.Document`). Everything the
driver calls but does not define is a field of `AlmaDocs.Env`: PHP's
`urlencode`, an HTTP GET followed by XML parsing, and the due-date
rendering. Each PHP exception becomes a `Wrappers.Failure`.

The driver degrades nowhere. Every response is parsed with
`new SimpleXMLElement`, and a body that is not XML makes it throw:

- a loans response at line 170, so `getHolding` fails with `MalformedLoans`;
- the holdings response at line 182 (`MalformedHoldings`);
- any holding's items response at line 202, which aborts the whole call
  rather than dropping that holding (`MalformedItems`).

`getStatuses` has no per-id isolation either: the first id whose lookup
throws aborts the batch.

PHP raises the same `Exception` at all three lines, and it carries no
holding id. `MalformedLoans`, `MalformedHoldings` and
`MalformedItems(holdingId)` are the model's labels for which statement threw.
The holding id in `MalformedItems` records which iteration of the loop at
lines 200-202 was running. It is not something the PHP exception carries.

Files: `wrappers.dfy` (Option, Result), `alma_docs.dfy` (inputs),
`alma_urls.dfy` (URL composition), `loan_index.dfy` (loan index),
`item_assembly.dfy` (item records and numbering), `alma_driver.dfy` (entry
points), `alma_examples.dfy` (a worked record).

## Model

| member | source | states |
|---|---|---|
| AlmaUrls.LoansUrlInjective | module/VuFind/src/VuFind/ILS/Driver/Alma.php:152-160 | with an injective URL encoder, distinct records get distinct loans URLs (`LoansUrl`: base URL, "/almaws/v1/bibs/", encoded id, "/loans?apikey=", key) |
| AlmaUrls.HoldingsUrlInjective | module/VuFind/src/VuFind/ILS/Driver/Alma.php:161-163 | with an injective URL encoder, distinct records get distinct holdings URLs (`HoldingsUrl`: same prefix and encoded id, then "/holdings?apikey=" and the key) |
| AlmaUrls.ItemsUrl | module/VuFind/src/VuFind/ILS/Driver/Alma.php:191-194 | when the encoded record id holds no slash, splitting the items URL gives back the encoded record id and holding id it was built from |
| AlmaUrls.SplitItemsUrlRoundTrip | module/VuFind/src/VuFind/ILS/Driver/Alma.php:191-194 | splitting the URL built from a slash-free encoded record id and any encoded holding id gives both back |
| AlmaUrls.SplitItemsUrlSound | module/VuFind/src/VuFind/ILS/Driver/Alma.php:191-194 | any URL that splits is the items URL of its two parts ("/holdings/", then the "/items?apikey=…&limit=90" query), and its record part has no slash |
| AlmaUrls.ItemsUrlInjective | module/VuFind/src/VuFind/ILS/Driver/Alma.php:190-195 | with an injective, slash-free URL encoder, distinct (record, holding) pairs get distinct items URLs |
| AlmaUrls.LoansNotHoldingsUrl | module/VuFind/src/VuFind/ILS/Driver/Alma.php:158-163 | for records with slash-free encodings, a loans URL never equals a holdings URL, of the same record or another |
| AlmaUrls.LoansNotItemsUrl | module/VuFind/src/VuFind/ILS/Driver/Alma.php:158-194 | for records with slash-free encodings, a loans URL never equals an items URL |
| AlmaUrls.HoldingsNotItemsUrl | module/VuFind/src/VuFind/ILS/Driver/Alma.php:161-194 | for records with slash-free encodings, a holdings URL never equals an items URL |
| LoanIndex.BuildLoanIndex | module/VuFind/src/VuFind/ILS/Driver/Alma.php:172-179 | a barcode is indexed exactly when some loan carries it, and it maps to the due date of the last such loan (last write wins) |
| LoanIndex.IndexAgreesWithLastLoan | module/VuFind/src/VuFind/ILS/Driver/Alma.php:172-179 | the index agrees with an independent scan from the end of the loan list, both for membership and for the value |
| ItemAssembly.StatusLabel | module/VuFind/src/VuFind/ILS/Driver/Alma.php:213-218 | the label is "Available" exactly when the base status is PHP-truthy (not "" and not "0"), otherwise "Not Available" |
| ItemAssembly.DueDate | module/VuFind/src/VuFind/ILS/Driver/Alma.php:222-228 | a due date is present exactly when the barcode is indexed under a truthy string, and it is that string rendered |
| ItemAssembly.MakeItem | module/VuFind/src/VuFind/ILS/Driver/Alma.php:206-228 | one item record: id is the record id, barcode and item_id are the item's barcode, reserve is "0", location is "library - location", the call number is the holding's, plus the status and due-date rules |
| ItemAssembly.HoldingItems | module/VuFind/src/VuFind/ILS/Driver/Alma.php:205-230 | one holding contributes one record per item, in document order, numbered on from the running count |
| ItemAssembly.AssembleItems | module/VuFind/src/VuFind/ILS/Driver/Alma.php:199-231 | the k-th record is built from the k-th item of the holdings' items laid end to end, with number count + k |
| ItemAssembly.NumbersAreDense | module/VuFind/src/VuFind/ILS/Driver/Alma.php:208-229 | numbering from zero, each record's number equals its position, so the numbers are exactly 0..n-1 with no repeats, where n is the total item count |
| ItemAssembly.ItemPosition | module/VuFind/src/VuFind/ILS/Driver/Alma.php:200-231 | item j of holding g is numbered after every item of holdings 0..g-1 and before every item of later holdings, and its record is built from that item |
| ItemAssembly.DueDateFromLastLoan | module/VuFind/src/VuFind/ILS/Driver/Alma.php:222-228 | an item's due date comes from the last loan with its exact barcode, if that date is truthy; with no such loan there is none |
| AlmaDriver.FetchItemGroups | module/VuFind/src/VuFind/ILS/Driver/Alma.php:197-203 | succeeds exactly when every holding's items response is XML, giving their items in holding order; otherwise it fails, labelled with the first holding whose response is not |
| AlmaDriver.GetHolding | module/VuFind/src/VuFind/ILS/Driver/Alma.php:149-233 | fails on a non-XML loans, holdings or items response, checked in that order; on success, record k is built from the k-th item over all holdings, numbered k, joined with the loan index |
| AlmaDriver.GetStatus | module/VuFind/src/VuFind/ILS/Driver/Alma.php:247-255 | returns exactly what getHolding returns, because the loop relabels copies; every label stays "Available" or "Not Available" |
| AlmaDriver.StatusWord | module/VuFind/src/VuFind/ILS/Driver/Alma.php:251-252 | the word the getStatus loop computes is "available" exactly when the availability equals 1, otherwise "unavailable" |
| AlmaDriver.GetStatusByReference | module/VuFind/src/VuFind/ILS/Driver/Alma.php:249-254 | with the loop binding entries by reference, every entry gets the word computed from its availability, and nothing else changes |
| AlmaDriver.ByValueLoopKeepsLabels | module/VuFind/src/VuFind/ILS/Driver/Alma.php:250-253 | no entry getStatus returns carries the word the loop computed for it |
| AlmaDriver.GetStatuses | module/VuFind/src/VuFind/ILS/Driver/Alma.php:268-277 | succeeds exactly when every id's lookup succeeds, each lookup against the server as it then is; then entry i is the status of ids[i], with one entry per id; otherwise it fails with the first failing id's exception |
| AlmaExamples.Record990012 | module/VuFind/src/VuFind/ILS/Driver/Alma.php:199-231 | worked record: holdings H1 (B1, B2) and H2 (B3) with B2 on loan give records 0, 1, 2 for B1, B2, B3; only B2 has a due date |
| AlmaExamples.StatusWordDiscarded | module/VuFind/src/VuFind/ILS/Driver/Alma.php:250-253 | on that record, B1's returned status is "Available" while the loop computed "available" for it |

## Left out

- `curlMultiRequest` (concurrent transfers through curl_multi) is not modelled. The model reads each response as `env.get(url)`. Two requests for the same URL in one `getHolding` call therefore see the same response. A failed transfer shows up as a `Malformed` document, because its empty body does not parse.
- XML parsing with `SimpleXMLElement` and `xpath` is not modelled. A parsed body is `Document.Xml`, holding the three views the driver queries. A missing element or attribute reads as the empty string, as PHP's string cast gives.
- The `if ($record)` guard on the loans document is not modelled. A loans root without `item_loan` children yields no loans whether or not the guard passes.
- `urlencode` is a function parameter. Only the two properties the URL lemmas need are stated about it (`AlmaUrls.IsUrlEncoder`): no slash in the output, and injectivity.
- `date('l jS F Y', strtotime(...))` depends on the default timezone, which both functions read, and for a relative date text also on the current time. `date` prints English day and month names whatever the locale. It is the parameter `env.formatDate`.
- `init`, `setHttpService` and the configuration lookup are plumbing. A missing `apikey` or `baseurl` reads as "" in PHP, which `Config` covers with any string.
- `getPurchaseHistory` is an empty stub.
- The unused `$patron` parameter of `getHolding` is left out.
- PHP turns a numeric-string array key such as "123" into an integer key. Only the loan index is keyed by strings in the model, which is faithful because that conversion is injective. The items array `$items["$count"]` has the integer keys 0..n-1, and the model returns it as a sequence whose position is that key.
- Only the first page of up to 90 items per holding is requested; the model takes whatever that page holds, as the code does.
- AlmaDriver.GetStatuses: each lookup gets its own server state `envAt(i)`, so two lookups of the same id may differ. Within one lookup the server is modelled as unchanging between the first round of requests (loans, holdings) and the second (items).
- AlmaDriver.StatusWord: models `availability == 1` as equality with "1". PHP's loose comparison also equates other numeric spellings, such as " 1", "01" and "1.0", with 1.

## Findings

| source | as written | input that shows it | evidently intended | confidence | as-written member | corrected member |
|---|---|---|---|---|---|---|
| module/VuFind/src/VuFind/ILS/Driver/Alma.php:250-253 | the loop binds each entry by value, so the status it assigns is written to a copy and lost; getStatus returns getHolding's list unchanged | record 990012 of the worked example: item B1 has base status "1", the loop computes "available", the returned entry still says "Available" | bind each entry by reference, so every entry's status becomes "available"/"unavailable" | medium (the loop has no other purpose), not executed | AlmaDriver.GetStatus, AlmaExamples.StatusWordDiscarded | AlmaDriver.GetStatusByReference |

`AlmaDriver.GetStatuses` is built on `AlmaDriver.GetStatus` as written,
because that is what the batch call returns.
