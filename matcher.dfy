/**
 * `findMatchingFoundItems` (index.js:227-256): the found reports that share at
 * least one space-separated keyword with a lost item, each with its keyword
 * score, ordered by decreasing score and, among equal scores, by their
 * position in the store (the stable sort keeps insertion order).
 */
module Matcher {
  import opened JsString
  import opened Registry

  /** A matching found report: its position in the store, the record, and its score. */
  datatype Match = Match(pos: nat, report: Report, score: nat)

  /**
   * `searchItem.toLowerCase().split(' ')`: space-free keywords that, joined
   * back with single spaces, give the lowercased item.
   */
  function Keywords(item: string): (keywords: seq<string>)
    ensures |keywords| >= 1
    ensures forall k :: 0 <= k < |keywords| ==> ' ' !in keywords[k]
    ensures Join(keywords, ' ') == ToLower(item)
  {
    JoinSplit(ToLower(item), ' ');
    Split(ToLower(item), ' ')
  }

  /** The text a found report is matched against: its item and description, lowercased. */
  function MatchText(r: Report): (text: string)
    ensures IsLower(text)
  {
    ToLower(r.item + " " + r.description)
  }

  /** The `reduce` of index.js:240-242: how many keywords the text includes. */
  function Score(keywords: seq<string>, text: string): (n: nat)
    ensures n <= |keywords|
  {
    if keywords == [] then 0
    else
      var last := |keywords| - 1;
      Score(keywords[..last], text) + (if Contains(text, keywords[last]) then 1 else 0)
  }

  /** The score is positive exactly when the text includes some keyword. */
  lemma {:induction false} ScorePositive(keywords: seq<string>, text: string)
    ensures Score(keywords, text) > 0 <==> exists k :: 0 <= k < |keywords| && Contains(text, keywords[k])
  {
    if keywords != [] {
      var last := |keywords| - 1;
      ScorePositive(keywords[..last], text);
      if exists k :: 0 <= k < |keywords| && Contains(text, keywords[k]) {
        var k :| 0 <= k < |keywords| && Contains(text, keywords[k]);
        if k < last {
          assert keywords[..last][k] == keywords[k];
        }
      }
    }
  }

  /** The score reaches the keyword count exactly when the text includes every keyword. */
  lemma {:induction false} ScoreFull(keywords: seq<string>, text: string)
    ensures Score(keywords, text) == |keywords| <==> forall k :: 0 <= k < |keywords| ==> Contains(text, keywords[k])
  {
    if keywords != [] {
      var last := |keywords| - 1;
      ScoreFull(keywords[..last], text);
      assert forall k :: 0 <= k < last ==> keywords[..last][k] == keywords[k];
    }
  }

  /** `m` is the record at its position, a found report, with its positive score. */
  ghost predicate IsMatchOf(m: Match, reports: seq<Report>, keywords: seq<string>) {
    && m.pos < |reports|
    && reports[m.pos] == m.report
    && m.report.kind == Found
    && m.score == Score(keywords, MatchText(m.report))
    && m.score > 0
  }

  /** The `forEach` of index.js:237-248: the matching found reports, in store order. */
  function Candidates(reports: seq<Report>, keywords: seq<string>): (ms: seq<Match>)
    ensures |ms| <= |reports|
    decreases |reports|
  {
    if reports == [] then []
    else
      var i := |reports| - 1;
      var rest := Candidates(reports[..i], keywords);
      var score := Score(keywords, MatchText(reports[i]));
      if reports[i].kind == Found && score > 0 then rest + [Match(i, reports[i], score)] else rest
  }

  /** Positions strictly increase along `ms`. */
  ghost predicate InStoreOrder(ms: seq<Match>) {
    forall j, k :: 0 <= j < k < |ms| ==> ms[j].pos < ms[k].pos
  }

  /** Every candidate is a found report with a positive score, at its position. */
  lemma {:induction false} CandidatesAreMatches(reports: seq<Report>, keywords: seq<string>)
    ensures forall j :: 0 <= j < |Candidates(reports, keywords)|
              ==> IsMatchOf(Candidates(reports, keywords)[j], reports, keywords)
    decreases |reports|
  {
    if reports != [] {
      var i := |reports| - 1;
      var prefix := reports[..i];
      CandidatesAreMatches(prefix, keywords);
      var rest := Candidates(prefix, keywords);
      var ms := Candidates(reports, keywords);
      forall j | 0 <= j < |ms| ensures IsMatchOf(ms[j], reports, keywords) {
        if j < |rest| {
          assert ms[j] == rest[j];
          assert IsMatchOf(rest[j], prefix, keywords);
          assert prefix[rest[j].pos] == reports[rest[j].pos];
        }
      }
    }
  }

  /** Candidates appear once each, in store order, all before the end of the store. */
  lemma {:induction false} CandidatesInStoreOrder(reports: seq<Report>, keywords: seq<string>)
    ensures InStoreOrder(Candidates(reports, keywords))
    ensures forall j :: 0 <= j < |Candidates(reports, keywords)| ==> Candidates(reports, keywords)[j].pos < |reports|
    decreases |reports|
  {
    if reports != [] {
      CandidatesInStoreOrder(reports[..|reports| - 1], keywords);
    }
  }

  /** Every found report with a positive score is a candidate. */
  lemma {:induction false} CandidatesComplete(reports: seq<Report>, keywords: seq<string>, p: nat)
    requires p < |reports| && reports[p].kind == Found && Score(keywords, MatchText(reports[p])) > 0
    ensures exists j :: 0 <= j < |Candidates(reports, keywords)| && Candidates(reports, keywords)[j].pos == p
    decreases |reports|
  {
    var i := |reports| - 1;
    var prefix := reports[..i];
    var rest := Candidates(prefix, keywords);
    var ms := Candidates(reports, keywords);
    if p < i {
      assert prefix[p] == reports[p];
      CandidatesComplete(prefix, keywords, p);
      var j :| 0 <= j < |rest| && rest[j].pos == p;
      assert ms[j] == rest[j];
      assert ms[j].pos == p;
    } else {
      assert ms[|ms| - 1].pos == p;
    }
  }

  // ---------------------------------------------------------------------------
  // The stable sort by score of index.js:251
  // ---------------------------------------------------------------------------

  /** `a` precedes `b` in the sorted result: a higher score, or an equal score and an earlier position. */
  predicate Before(a: Match, b: Match) {
    a.score > b.score || (a.score == b.score && a.pos < b.pos)
  }

  ghost predicate Ranked(ms: seq<Match>) {
    forall j, k :: 0 <= j < k < |ms| ==> Before(ms[j], ms[k])
  }

  /** Inserts `m` before the first element whose score does not exceed its own. */
  function InsertByScore(m: Match, sorted: seq<Match>): (r: seq<Match>)
    ensures multiset(r) == multiset(sorted) + multiset{m}
  {
    if sorted == [] then [m]
    else if sorted[0].score <= m.score then [m] + sorted
    else
      assert sorted == [sorted[0]] + sorted[1..];
      [sorted[0]] + InsertByScore(m, sorted[1..])
  }

  /**
   * `Array.prototype.sort` with the comparator `b.matchScore - a.matchScore`,
   * which the language requires to be stable: insertion from the back.
   */
  function SortByScore(ms: seq<Match>): (r: seq<Match>)
    ensures multiset(r) == multiset(ms)
  {
    if ms == [] then []
    else
      assert ms == [ms[0]] + ms[1..];
      InsertByScore(ms[0], SortByScore(ms[1..]))
  }

  /** Every element of the insertion is the inserted entry or one already there. */
  lemma {:induction false} InsertMembers(m: Match, sorted: seq<Match>)
    ensures forall x :: x in InsertByScore(m, sorted) ==> x == m || x in sorted
  {
    if sorted != [] && sorted[0].score > m.score {
      InsertMembers(m, sorted[1..]);
      assert InsertByScore(m, sorted) == [sorted[0]] + InsertByScore(m, sorted[1..]);
    }
  }

  lemma {:induction false} InsertRanked(m: Match, sorted: seq<Match>)
    requires Ranked(sorted)
    requires forall j :: 0 <= j < |sorted| ==> m.pos < sorted[j].pos
    ensures Ranked(InsertByScore(m, sorted))
  {
    if sorted == [] {
    } else if sorted[0].score <= m.score {
      var r := [m] + sorted;
      forall j, k | 0 <= j < k < |r| ensures Before(r[j], r[k]) {
        if j == 0 {
          assert Before(sorted[0], sorted[k - 1]) || k == 1;
        } else {
          assert r[j] == sorted[j - 1] && r[k] == sorted[k - 1];
        }
      }
    } else {
      var tail := sorted[1..];
      InsertRanked(m, tail);
      InsertMembers(m, tail);
      var ins := InsertByScore(m, tail);
      var r := [sorted[0]] + ins;
      forall j, k | 0 <= j < k < |r| ensures Before(r[j], r[k]) {
        if j == 0 {
          var x := ins[k - 1];
          assert r[k] == x && x in ins;
          if x != m {
            var i :| 0 <= i < |tail| && tail[i] == x;
            assert x == sorted[i + 1];
          }
        } else {
          assert r[j] == ins[j - 1] && r[k] == ins[k - 1];
        }
      }
    }
  }

  /** Sorting a list in store order ranks it by score, ties kept in store order. */
  lemma {:induction false} SortRanked(ms: seq<Match>)
    requires InStoreOrder(ms)
    ensures Ranked(SortByScore(ms))
  {
    if ms != [] {
      var tail := ms[1..];
      SortRanked(tail);
      var sorted := SortByScore(tail);
      forall j | 0 <= j < |sorted| ensures ms[0].pos < sorted[j].pos {
        assert sorted[j] in multiset(tail);
      }
      InsertRanked(ms[0], sorted);
    }
  }

  // ---------------------------------------------------------------------------
  // The matcher
  // ---------------------------------------------------------------------------

  /** The list `findMatchingFoundItems(item)` returns over the given store. */
  function FoundMatches(reports: seq<Report>, item: string): (ms: seq<Match>)
    ensures |ms| <= |reports|
  {
    var candidates := Candidates(reports, Keywords(item));
    assert |multiset(SortByScore(candidates))| == |multiset(candidates)|;
    SortByScore(candidates)
  }

  /**
   * Every match is a found report with a positive score no larger than the
   * keyword count, at its position; lost reports are never returned.
   */
  lemma {:induction false} MatchesAreFoundWithScore(reports: seq<Report>, item: string)
    ensures forall j :: 0 <= j < |FoundMatches(reports, item)|
              ==> IsMatchOf(FoundMatches(reports, item)[j], reports, Keywords(item))
                  && FoundMatches(reports, item)[j].score <= |Keywords(item)|
  {
    var keywords := Keywords(item);
    var ms := Candidates(reports, keywords);
    var r := FoundMatches(reports, item);
    CandidatesAreMatches(reports, keywords);
    forall j | 0 <= j < |r| ensures IsMatchOf(r[j], reports, keywords) {
      assert r[j] in multiset(ms);
      var k :| 0 <= k < |ms| && ms[k] == r[j];
      assert IsMatchOf(ms[k], reports, keywords);
    }
  }

  /** Every found report that includes one of the item's keywords is matched. */
  lemma {:induction false} MatchesComplete(reports: seq<Report>, item: string, i: nat)
    requires i < |reports| && reports[i].kind == Found
    requires exists k :: 0 <= k < |Keywords(item)| && Contains(MatchText(reports[i]), Keywords(item)[k])
    ensures exists j :: 0 <= j < |FoundMatches(reports, item)| && FoundMatches(reports, item)[j].pos == i
  {
    var keywords := Keywords(item);
    var ms := Candidates(reports, keywords);
    var r := FoundMatches(reports, item);
    ScorePositive(keywords, MatchText(reports[i]));
    CandidatesComplete(reports, keywords, i);
    var k :| 0 <= k < |ms| && ms[k].pos == i;
    assert ms[k] in multiset(r);
    var j :| 0 <= j < |r| && r[j] == ms[k];
  }

  /** Matches are ranked by non-increasing score, equal scores in store order. */
  lemma {:induction false} MatchesRanked(reports: seq<Report>, item: string)
    ensures Ranked(FoundMatches(reports, item))
  {
    CandidatesInStoreOrder(reports, Keywords(item));
    SortRanked(Candidates(reports, Keywords(item)));
  }

  /**
   * A lost item whose lowercased name holds two spaces in a row, or is empty,
   * yields the empty keyword, which every text includes: then every found
   * report in the store is a match.
   */
  lemma EmptyKeywordMatchesEveryFound(reports: seq<Report>, item: string)
    requires "" in Keywords(item)
    ensures forall i :: 0 <= i < |reports| && reports[i].kind == Found
              ==> exists j :: 0 <= j < |FoundMatches(reports, item)| && FoundMatches(reports, item)[j].pos == i
  {
    var keywords := Keywords(item);
    var k :| 0 <= k < |keywords| && keywords[k] == "";
    forall i | 0 <= i < |reports| && reports[i].kind == Found
      ensures exists j :: 0 <= j < |FoundMatches(reports, item)| && FoundMatches(reports, item)[j].pos == i
    {
      EmptyIsContained(MatchText(reports[i]));
      MatchesComplete(reports, item, i);
    }
  }

  /**
   * `findMatchingFoundItems`: scores each found report in store order, keeps
   * those with a positive score, then sorts them by score.
   */
  method FindMatchingFoundItems(reports: seq<Report>, searchItem: string) returns (matching: seq<Match>)
    ensures matching == FoundMatches(reports, searchItem)
  {
    if reports == [] {
      return [];
    }
    var searchKeywords := Split(ToLower(searchItem), ' ');
    var matchingItems: seq<Match> := [];
    var i := 0;
    while i < |reports|
      invariant 0 <= i <= |reports|
      invariant matchingItems == Candidates(reports[..i], searchKeywords)
    {
      var report := reports[i];
      if report.kind == Found {
        var reportText := ToLower(report.item + " " + report.description);
        var matchScore := Score(searchKeywords, reportText);
        if matchScore > 0 {
          matchingItems := matchingItems + [Match(i, report, matchScore)];
        }
      }
      assert reports[..i + 1][..i] == reports[..i];
      i := i + 1;
    }
    assert reports[..i] == reports;
    matching := SortByScore(matchingItems);
  }
}
