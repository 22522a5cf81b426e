/**
 * The search branch of `handleTelegramResponse` (index.js:186-202): every
 * report, lost or found, whose lowercased `item location description`
 * includes the lowercased query, in store order.
 */
module Search {
  import opened JsString
  import opened Registry

  /** The searched text of a report (index.js:187). */
  function SearchText(r: Report): (text: string)
    ensures IsLower(text)
  {
    ToLower(r.item + " " + r.location + " " + r.description)
  }

  /** The report is listed for the query (index.js:188). */
  predicate Listed(r: Report, query: string)
    ensures Listed(r, query) <==> OccursIn(ToLower(query), SearchText(r))
  {
    ContainsIffOccurs(SearchText(r), ToLower(query));
    Contains(SearchText(r), ToLower(query))
  }

  /** The reports listed for the query, in store order. */
  function SearchHits(reports: seq<Report>, query: string): (hits: seq<Report>)
    ensures |hits| <= |reports|
    decreases |reports|
  {
    if reports == [] then []
    else
      var i := |reports| - 1;
      SearchHits(reports[..i], query) + (if Listed(reports[i], query) then [reports[i]] else [])
  }

  /** A report is among the hits exactly when it is stored and its text includes the query. */
  lemma {:induction false} SearchHitsSpec(reports: seq<Report>, query: string, r: Report)
    ensures r in SearchHits(reports, query) <==> r in reports && OccursIn(ToLower(query), SearchText(r))
    decreases |reports|
  {
    ContainsIffOccurs(SearchText(r), ToLower(query));
    if reports != [] {
      var i := |reports| - 1;
      SearchHitsSpec(reports[..i], query, r);
      assert reports == reports[..i] + [reports[i]];
    }
  }

  /**
   * The `forEach` of index.js:186-198: walks the store in order, appending
   * each listed report and raising `found` on the first.
   */
  method SearchReports(reports: seq<Report>, msg: string) returns (hits: seq<Report>, found: bool)
    ensures hits == SearchHits(reports, msg)
    ensures found <==> hits != []
  {
    hits, found := [], false;
    var i := 0;
    while i < |reports|
      invariant 0 <= i <= |reports|
      invariant hits == SearchHits(reports[..i], msg)
      invariant found <==> hits != []
    {
      var report := reports[i];
      var searchText := ToLower(report.item + " " + report.location + " " + report.description);
      if Contains(searchText, ToLower(msg)) {
        found := true;
        hits := hits + [report];
      }
      assert reports[..i + 1][..i] == reports[..i];
      i := i + 1;
    }
    assert reports[..i] == reports;
  }
}
