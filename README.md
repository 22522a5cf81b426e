# KWASU lost-and-found Telegram bot — a Dafny model

The bot (`index.js`) is a Telegram webhook. It takes one inbound message at
a time and keeps two Firebase stores:

- the **session store**, `users/{from}`, holds the action each user has
  picked from the menu: report a lost item, report a found item, or search;
- the **report store**, `reports`, holds the submitted lost and found
  records in push order.

Each message is one step of a state machine over these two stores.

1. The text is lowercased.
2. `/start` and `menu` show the menu. `1`, `2` and `3` overwrite the sender's
   pending action. `4` shows the developer's contact.
3. Any other text goes to the response handler, which does one of three things:
   - with a report action pending, it parses `ITEM, LOCATION, THIRD[, ...]`
     into a record, appends it and clears the action. Text with fewer than
     two commas gets the format reminder for that kind instead, and the
     action stays pending. For a lost item, it also lists the found reports
     whose lowercased `item description` contains at least one of the
     space-separated words of the lost item. They are ranked by how many of
     those words, repeats included, the text contains. The test is substring
     containment in one direction, so a lost `key` matches a found `monkey`,
     but a lost `keys` does not match a found `key`;
   - with a search pending, it lists every report whose `item location
     description` contains the text, then clears the action. If the report
     store is empty, it answers that there are no items and returns early,
     so the action stays pending;
   - with nothing pending, it answers "Invalid command".

The model has five modules:

- `JsString` (`jsstring.dfy`) — the JavaScript string built-ins the handler
  uses: `toLowerCase`, `split` and `join` on one character, `trim`, and
  `includes`. Each is given a contract, or a lemma, that says what it
  means. For example, `join` is pinned down by its two round trips with
  `split`, and `includes` by `ContainsIffOccurs`.
- `Registry` (`registry.dfy`) — the `Report` record and `ParseReport`, with
  lemmas that give the fields of a lost and of a found report in terms of
  the text around the first two or three commas.
- `Matcher` (`matcher.dfy`) — `findMatchingFoundItems`. The pure parts are
  functions: the keyword score (the `reduce`), the scan (`Candidates`) and
  the stable sort by score. The method with the loop is proved equal to
  them. The lemmas say which records are returned and in what order.
- `Search` (`search.dfy`) — the substring filter of the search branch. The
  loop that raises `found` is a method proved equal to the filter function.
- `Bot` (`bot.dfy`) — `Step` is the whole webhook step as a function of the
  two stores and the update. The lemmas give the properties of one step.
  The class `LostAndFoundBot` keeps `sessions: map<UserId, Action>` and
  `reports: seq<Report>` as fields. Its methods `HandleUpdate`,
  `HandleTelegramResponse` and `SubmitReport` update the fields in place.
  Each is proved to leave the stores and reply exactly as `Step` (or its
  `Respond` and `Submit` parts) says, and to keep every stored report well
  formed.

Replies are modelled as tagged values that carry the records they show,
for example `LostReported(report, matches)` or `SearchResults(query, hits)`.

`index.js` matches a lost item's words as substrings of found reports,
searches reports of both kinds by substring, and stores the phone as given.
The model follows `index.js`.

Some behaviours of `index.js` are stated in the model because a reader
might not expect them:

- The default description `"No description"` keeps its capital N. It is the
  one stored text field that is not lower case (`Registry.WellFormed`).
- A lost item whose lowercased name has two spaces in a row, or is empty,
  yields an empty keyword. Every text contains the empty string, so every
  found report matches (`Matcher.EmptyKeywordMatchesEveryFound`).
- A search over an empty report store returns before the session is
  removed, so the search action stays pending
  (`Bot.SearchOnEmptyStoreKeepsSession`).
- A command must be exactly `1`, `menu`, and so on after lowercasing: the
  text is not trimmed, so ` 1` goes to the response handler.

## Model

| member | source | states |
|---|---|---|
| `JsString.ToLower` | index.js:29 | `toLowerCase` keeps the length, lowers every character, returns a lower-case string and leaves lower-case text unchanged |
| `JsString.Split` | index.js:81 | `split(',')` returns at least one piece and no piece contains the separator |
| `JsString.SplitCount` | index.js:81-82 | there is one more piece than there are separators, so "fewer than 3 parts" means "fewer than 2 commas" |
| `JsString.JoinSplit` | index.js:100 | joining the split pieces with the same separator gives back the original text, so rejoining keeps the commas |
| `JsString.SplitJoin` | index.js:100 | splitting a join of separator-free pieces gives back the pieces |
| `JsString.Join` | index.js:100 | `parts.join(sep)`: one piece joins to itself; its full meaning is given by `JoinSplit` and `SplitJoin` |
| `JsString.Trim` | index.js:87-89 | the trimmed text is the infix of the input that starts where the leading white space ends, with only white space before and after it, and it neither starts nor ends with white space |
| `JsString.Contains` | index.js:188 | `text.includes(pattern)`, the left-to-right scan: a contained pattern is no longer than the text |
| `JsString.ContainsIffOccurs` | index.js:188 | `includes` holds exactly when the pattern occurs at some position of the text |
| `Registry.ParseReport` | index.js:81-104 | a parsed report has the requested kind, the sender as reporter, and a phone exactly when it is a found report |
| `Registry.ParseAcceptsTwoCommas` | index.js:81-85 | a submission is accepted exactly when it contains at least two commas |
| `Registry.CutAtTwoCommas` | index.js:81-100 | the text is piece 0, a comma, piece 1, a comma, then the rejoined remaining pieces |
| `Registry.LostReportFields` | index.js:87-100 | for `a,b,rest` with no comma in `a` or `b`, the lost report is item `trim(a)`, location `trim(b)`, description `trim(rest)` with its commas kept, no phone |
| `Registry.FoundReportFields` | index.js:87-104 | for `a,b,phone[,d]`, the found report has phone `trim(phone)`, unchecked, and description `trim(d)`, or "No description" when `d` is absent or blank |
| `Registry.ParsedIsWellFormed` | index.js:29-104 | a report parsed from lowercased text has lower-case fields, apart from the default description, and a phone exactly when found |
| `Matcher.Keywords` | index.js:234 | the lowercased item split at single spaces: at least one keyword, none containing a space, and joining them back with single spaces gives the lowercased item |
| `Matcher.MatchText` | index.js:239 | the matched text `item description` is lower case |
| `Matcher.Score` | index.js:240-242 | the score is at most the number of keywords |
| `Matcher.ScorePositive` | index.js:240-244 | the score is positive exactly when the text contains some keyword |
| `Matcher.ScoreFull` | index.js:240-242 | the score equals the keyword count exactly when the text contains every keyword |
| `Matcher.Candidates` | index.js:237-248 | the scan over the store that collects each positive-score found report at its position: never more entries than reports |
| `Matcher.CandidatesAreMatches` | index.js:237-248 | every collected entry is a found report at its store position, with its score, and that score is positive |
| `Matcher.CandidatesInStoreOrder` | index.js:237-248 | collected entries come once each, in store order |
| `Matcher.CandidatesComplete` | index.js:237-248 | every found report with a positive score is collected |
| `Matcher.InsertByScore` | index.js:251 | insertion adds exactly the new entry (multiset) |
| `Matcher.SortByScore` | index.js:251 | the sort is a permutation (multiset) |
| `Matcher.InsertRanked` | index.js:251 | inserting an entry that is earlier in the store than the others into a ranked list keeps it ranked |
| `Matcher.SortRanked` | index.js:251 | sorting a list that is in store order gives non-increasing scores, with ties in store order (stability) |
| `Matcher.FoundMatches` | index.js:227-256 | the matcher's result, the collected entries sorted by score: never more matches than reports |
| `Matcher.MatchesAreFoundWithScore` | index.js:234-251 | each returned match is a found report (never a lost one) with score between 1 and the keyword count |
| `Matcher.MatchesComplete` | index.js:234-251 | each found report that contains one of the item's keywords is returned |
| `Matcher.MatchesRanked` | index.js:250-251 | the result is ordered by non-increasing score, with ties in insertion order |
| `Matcher.EmptyKeywordMatchesEveryFound` | index.js:234-244 | when the item yields an empty keyword, every found report is returned |
| `Matcher.FindMatchingFoundItems` | index.js:227-256 | the loop that scores and pushes, followed by the sort, returns exactly `FoundMatches` |
| `Search.SearchText` | index.js:187 | the searched text `item location description` is lower case |
| `Search.Listed` | index.js:187-188 | a report is listed for a query exactly when the lowercased query occurs in its lowercased `item location description` |
| `Search.SearchHits` | index.js:186-198 | no more hits than reports |
| `Search.SearchHitsSpec` | index.js:186-198 | a report is a hit exactly when it is stored and the lowercased query occurs in its searched text, whatever its kind |
| `Search.SearchReports` | index.js:182-202 | the `forEach` loop collects exactly `SearchHits`, and `found` is raised exactly when there is a hit |
| `Bot.Submit` | index.js:80-170 | a submission sends exactly one reply, in the sender's chat; it leaves the sessions unchanged or removes only the sender's entry, and appends at most one report, earlier records unchanged |
| `Bot.Respond` | index.js:68-211 | the response handler sends exactly one reply, in the sender's chat; it leaves the sessions unchanged or removes only the sender's entry, and appends at most one report, earlier records unchanged |
| `Bot.Step` | index.js:26-58 | one webhook step sends at most one reply and only appends to the reports (the push at index.js:107-108): at most one record per step, earlier records unchanged |
| `Bot.MenuChoiceSetsSession` | index.js:37-50 | after lowercasing, `1`, `2` and `3` set the sender's action to report lost, report found and search, replacing any earlier one, and leave the reports alone |
| `Bot.MenuAndContactChangeNothing` | index.js:33-35 | `/start`, `menu` and `4`, in any case, reply with the menu or the contact and change neither store (`4` is handled at index.js:52-54) |
| `Bot.NoSessionNoEffect` | index.js:71-77 | a non-command from a user with no session gets "Invalid command", and neither store changes |
| `Bot.TooFewPartsRejected` | index.js:80-85 | a report submission with fewer than two commas gets the format reminder for its kind; no report is added and the session is kept |
| `Bot.StepIsSubmit` | index.js:56-58 | a non-command under a pending report action is handled as a submission of that kind |
| `Bot.LostSubmission` | index.js:87-141 | a lost submission appends exactly one report with the parsed fields, removes the sender's session (line 169) and replies with the matches from the store that now includes it |
| `Bot.FoundSubmission` | index.js:87-169 | a found submission appends exactly one report with the phone and default description rules and removes the sender's session |
| `Bot.SearchListsMatchesAndClears` | index.js:173-205 | a search over a non-empty store replies once, echoing the lowercased query, with the stored reports of either kind that contain it, in store order, or with the no-results reply when there are none; it lists exactly the matching reports and removes the session |
| `Bot.SearchOnEmptyStoreKeepsSession` | index.js:174-180 | a search over an empty store replies "no items" and returns before clearing, so the session survives |
| `Bot.OnlySenderSessionChanges` | index.js:39-49 | a step changes no session other than the sender's `users/{from}` entry (also at lines 169 and 205); an update without a message changes nothing |
| `Bot.OtherSessionsIrrelevant` | index.js:71-72 | only the sender's session is read: stores that agree on it and on the reports give the same replies and reports |
| `Bot.StepKeepsReportsWellFormed` | index.js:29-108 | every step keeps every stored report well formed (lower-case fields apart from the default description, phone exactly on found items) |
| `Bot.OneReplyPerTextMessage` | index.js:26-58 | a text message gets exactly one reply, in its own chat; an update without text gets none |
| `Bot.LostAndFoundBot.HandleUpdate` | index.js:22-66 | the webhook handler updates the two store fields and replies exactly as `Step`, and keeps them well formed |
| `Bot.LostAndFoundBot.HandleTelegramResponse` | index.js:68-211 | the response handler updates the fields and replies exactly as `Respond` |
| `Bot.LostAndFoundBot.SubmitReport` | index.js:80-170 | the report branch appends the parsed report and clears the session exactly as `Submit` |

## Left out

- Express setup, the webhook route wiring, `res.sendStatus`, `setWebhook` and the listener (index.js:1-22, 61-65, 258-276): server infrastructure.
- `sendTelegramMessage` and its HTTP call (index.js:214-224): network output. Each send is a returned `Outgoing(chatId, reply)`. The emoji and Markdown text is not modelled: a reply is a tag plus the records it shows. Send failures are swallowed in the source, so they change nothing.
- Firebase: both stores are in memory. A push key is the record's position in the store. `Object.entries` visits records in push order.
- Errors from the store or transport, and the catch blocks that log them (index.js:62-64, 207-210, 252-255), are not modelled. The one catch that is modelled is for a message without text: its `toLowerCase` at index.js:29 throws, and the step changes nothing and sends nothing.
- Timestamps (index.js:96, 128, 196): they depend on the clock and the locale.
- Concurrency: each update is handled as one atomic step. Interleavings of the asynchronous store calls from different requests are not modelled.
- JsString.ToLower: lowers only ASCII and Latin-1 capitals, not all of Unicode's case mappings (for example, mappings that change the string's length). The bot's commands and separators are ASCII, so dispatch and parsing are unaffected. The same lowering, however, is what makes keyword matching (index.js:234, 239) and search (index.js:187-188) case-insensitive. In the model, capitals outside Latin-1 are left as they are, so a found item `КЛЮЧИ` and a lost item `Ключи` match in the source but not in the model.
- Strings are sequences of Unicode scalar values rather than UTF-16 code units. `split` on `,` or a space, `trim` and `includes` give the same pieces either way.
- User ids are integers. The source keys sessions and reporters by the id's decimal text, which is a one-to-one mapping.
- Search.SearchHits: its order is given by its definition (store order). No separate lemma states it.
