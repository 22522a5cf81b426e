/**
 * The webhook handler of the bot (index.js:26-58) and `handleTelegramResponse`
 * (index.js:68-211): one inbound Telegram update is one step of a state
 * machine over two stores, the per-user pending action kept at
 * `users/{from}` and the list of reports kept under `reports`.
 *
 * `Step` states the step as a function of the stores and the update;
 * `LostAndFoundBot` holds the two stores as fields and its methods perform
 * the step in place, proved equal to `Step`. Outbound Telegram messages are
 * returned as a list of replies, each a tag and the records it shows.
 */
module Bot {
  import opened JsString
  import opened Registry
  import opened Matcher
  import opened Search

  /** The pending action stored at `users/{from}`. */
  datatype Action = ReportLost | ReportFound | SearchItems

  /** An inbound message: the chat to answer in, the sender, and its text if it has one. */
  datatype Message = Message(chatId: int, from: UserId, text: Option<string>)

  /** A webhook update, which may carry no message at all. */
  datatype Update = Update(message: Option<Message>)

  /** The body of one outbound message, as a tag and the records it shows. */
  datatype Reply =
    | MainMenu
    | LostPrompt
    | FoundPrompt
    | SearchPrompt
    | DeveloperContact
    | InvalidCommand
    | FormatError(kind: Kind)
    | LostReported(report: Report, matches: seq<Match>)
    | FoundReported(report: Report)
    | SearchResults(query: string, hits: seq<Report>)
    | NoSearchResults(query: string)
    | EmptyDatabase

  datatype Outgoing = Outgoing(chatId: int, reply: Reply)

  /** Both stores: pending actions by user, and the reports in push order. */
  datatype Store = Store(sessions: map<UserId, Action>, reports: seq<Report>)

  /** The stores after a step, and the messages the step sends. */
  datatype Transition = Transition(store: Store, replies: seq<Outgoing>)

  /** The update a text message from `from` in chat `chatId` arrives as. */
  function TextUpdate(chatId: int, from: UserId, raw: string): Update {
    Update(Some(Message(chatId, from, Some(raw))))
  }

  /** The lowercased texts the dispatcher answers itself (index.js:33-54). */
  predicate IsCommand(text: string) {
    text == "/start" || text == "menu" || text == "1" || text == "2" || text == "3" || text == "4"
  }

  /** The records a search reply lists. */
  function Shown(reply: Reply): seq<Report> {
    if reply.SearchResults? then reply.hits else []
  }

  // ---------------------------------------------------------------------------
  // The step as a function
  // ---------------------------------------------------------------------------

  /** Parses and stores a submission for a pending report action (index.js:80-170). */
  function Submit(s: Store, kind: Kind, from: UserId, msg: string, chatId: int): (t: Transition)
    ensures |t.replies| == 1 && t.replies[0].chatId == chatId
    ensures t.store.sessions == s.sessions || t.store.sessions == s.sessions - {from}
    ensures |s.reports| <= |t.store.reports| <= |s.reports| + 1
    ensures t.store.reports[..|s.reports|] == s.reports
  {
    match ParseReport(kind, msg, from)
    case None => Transition(s, [Outgoing(chatId, FormatError(kind))])
    case Some(report) =>
      var reports := s.reports + [report];
      assert reports[..|s.reports|] == s.reports;
      var reply := if kind == Lost then LostReported(report, FoundMatches(reports, report.item))
                   else FoundReported(report);
      Transition(Store(s.sessions - {from}, reports), [Outgoing(chatId, reply)])
  }

  /** `handleTelegramResponse`: answers a non-command text according to the sender's pending action. */
  function Respond(s: Store, from: UserId, msg: string, chatId: int): (t: Transition)
    ensures |t.replies| == 1 && t.replies[0].chatId == chatId
    ensures t.store.sessions == s.sessions || t.store.sessions == s.sessions - {from}
    ensures |s.reports| <= |t.store.reports| <= |s.reports| + 1
    ensures t.store.reports[..|s.reports|] == s.reports
  {
    if from !in s.sessions then Transition(s, [Outgoing(chatId, InvalidCommand)])
    else
      match s.sessions[from]
      case ReportLost => Submit(s, Lost, from, msg, chatId)
      case ReportFound => Submit(s, Found, from, msg, chatId)
      case SearchItems =>
        if |s.reports| == 0 then Transition(s, [Outgoing(chatId, EmptyDatabase)])
        else
          var hits := SearchHits(s.reports, msg);
          var reply := if hits == [] then NoSearchResults(msg) else SearchResults(msg, hits);
          Transition(Store(s.sessions - {from}, s.reports), [Outgoing(chatId, reply)])
  }

  /**
   * The webhook body: an update without a message, or a message without
   * text (whose `toLowerCase` throws into the handler's catch), changes
   * nothing and sends nothing; otherwise the lowercased text is dispatched.
   * A step sends at most one reply, and only ever appends to the reports:
   * at most one record, with the earlier records unchanged.
   */
  function Step(s: Store, u: Update): (t: Transition)
    ensures |t.replies| <= 1
    ensures |s.reports| <= |t.store.reports| <= |s.reports| + 1
    ensures t.store.reports[..|s.reports|] == s.reports
  {
    match u.message
    case None => Transition(s, [])
    case Some(m) =>
      match m.text
      case None => Transition(s, [])
      case Some(raw) =>
        var text := ToLower(raw);
        if text == "/start" || text == "menu" then Transition(s, [Outgoing(m.chatId, MainMenu)])
        else if text == "1" then Transition(Store(s.sessions[m.from := ReportLost], s.reports), [Outgoing(m.chatId, LostPrompt)])
        else if text == "2" then Transition(Store(s.sessions[m.from := ReportFound], s.reports), [Outgoing(m.chatId, FoundPrompt)])
        else if text == "3" then Transition(Store(s.sessions[m.from := SearchItems], s.reports), [Outgoing(m.chatId, SearchPrompt)])
        else if text == "4" then Transition(s, [Outgoing(m.chatId, DeveloperContact)])
        else Respond(s, m.from, text, m.chatId)
  }

  // ---------------------------------------------------------------------------
  // Properties of a step
  // ---------------------------------------------------------------------------

  /**
   * `1`, `2` and `3`, in any case, set the sender's pending action to report
   * lost, report found and search, replacing any earlier one, and answer
   * with the matching prompt; the reports are untouched.
   */
  lemma MenuChoiceSetsSession(s: Store, chatId: int, from: UserId, raw: string)
    ensures var t := Step(s, TextUpdate(chatId, from, raw));
            && (ToLower(raw) == "1" ==> t == Transition(Store(s.sessions[from := ReportLost], s.reports), [Outgoing(chatId, LostPrompt)]))
            && (ToLower(raw) == "2" ==> t == Transition(Store(s.sessions[from := ReportFound], s.reports), [Outgoing(chatId, FoundPrompt)]))
            && (ToLower(raw) == "3" ==> t == Transition(Store(s.sessions[from := SearchItems], s.reports), [Outgoing(chatId, SearchPrompt)]))
  {
  }

  /** `/start`, `menu` and `4`, in any case, only reply: neither store changes. */
  lemma MenuAndContactChangeNothing(s: Store, chatId: int, from: UserId, raw: string)
    requires ToLower(raw) == "/start" || ToLower(raw) == "menu" || ToLower(raw) == "4"
    ensures var t := Step(s, TextUpdate(chatId, from, raw));
            t.store == s && t.replies == [Outgoing(chatId, if ToLower(raw) == "4" then DeveloperContact else MainMenu)]
  {
  }

  /** A non-command from a user with no pending action gets "Invalid command" and changes nothing. */
  lemma NoSessionNoEffect(s: Store, chatId: int, from: UserId, raw: string)
    requires !IsCommand(ToLower(raw)) && from !in s.sessions
    ensures Step(s, TextUpdate(chatId, from, raw)) == Transition(s, [Outgoing(chatId, InvalidCommand)])
  {
  }

  /**
   * A report submission with fewer than two commas is answered with the
   * format reminder for its kind; no report is stored and the pending action
   * is kept.
   */
  lemma TooFewPartsRejected(s: Store, chatId: int, from: UserId, raw: string)
    requires !IsCommand(ToLower(raw)) && from in s.sessions && s.sessions[from] != SearchItems
    requires Count(ToLower(raw), ',') < 2
    ensures var kind := if s.sessions[from] == ReportLost then Lost else Found;
            Step(s, TextUpdate(chatId, from, raw)) == Transition(s, [Outgoing(chatId, FormatError(kind))])
  {
    var kind := if s.sessions[from] == ReportLost then Lost else Found;
    ParseAcceptsTwoCommas(kind, ToLower(raw), from);
  }

  /** A non-command text under a pending report action is a submission. */
  lemma StepIsSubmit(s: Store, chatId: int, from: UserId, raw: string)
    requires !IsCommand(ToLower(raw)) && from in s.sessions && s.sessions[from] != SearchItems
    ensures var kind := if s.sessions[from] == ReportLost then Lost else Found;
            Step(s, TextUpdate(chatId, from, raw)) == Submit(s, kind, from, ToLower(raw), chatId)
  {
  }

  /**
   * A lost-item submission `ITEM, LOCATION, DESCRIPTION` appends exactly one
   * lost report (the trimmed item and location, and all the text after the
   * second comma, trimmed, as description), clears the sender's pending
   * action and replies with the report and the found items matching it.
   */
  lemma LostSubmission(s: Store, chatId: int, from: UserId, raw: string, a: string, b: string, rest: string)
    requires !IsCommand(ToLower(raw)) && from in s.sessions && s.sessions[from] == ReportLost
    requires ToLower(raw) == a + "," + b + "," + rest && ',' !in a && ',' !in b
    ensures var report := Report(Lost, Trim(a), Trim(b), Trim(rest), None, from);
            var reports := s.reports + [report];
      assert reports[..|s.reports|] == s.reports;
            Step(s, TextUpdate(chatId, from, raw))
              == Transition(Store(s.sessions - {from}, reports),
                            [Outgoing(chatId, LostReported(report, FoundMatches(reports, Trim(a))))])
  {
    var msg := ToLower(raw);
    StepIsSubmit(s, chatId, from, raw);
    LostReportFields(msg, from, a, b, rest);
  }

  /**
   * A found-item submission `ITEM, LOCATION, PHONE[, DESCRIPTION]` appends
   * exactly one found report with the phone as given, trimmed, and the
   * description after the third comma or the default; it clears the
   * sender's pending action.
   */
  lemma FoundSubmission(s: Store, chatId: int, from: UserId, raw: string,
                        a: string, b: string, phone: string, d: Option<string>)
    requires !IsCommand(ToLower(raw)) && from in s.sessions && s.sessions[from] == ReportFound
    requires ToLower(raw) == a + "," + b + "," + phone + (if d.Some? then "," + d.value else "")
    requires ',' !in a && ',' !in b && ',' !in phone
    ensures var desc := if d.Some? && Trim(d.value) != "" then Trim(d.value) else NoDescription;
            var report := Report(Found, Trim(a), Trim(b), desc, Some(Trim(phone)), from);
            Step(s, TextUpdate(chatId, from, raw))
              == Transition(Store(s.sessions - {from}, s.reports + [report]), [Outgoing(chatId, FoundReported(report))])
  {
    var msg := ToLower(raw);
    StepIsSubmit(s, chatId, from, raw);
    FoundReportFields(msg, from, a, b, phone, d);
  }

  /**
   * A search over a non-empty store replies once, echoing the lowercased
   * query, with the stored reports of either kind, in store order, whose
   * lowercased `item location description` includes it, or with the
   * no-results reply when there are none; it clears the sender's pending
   * action.
   */
  lemma SearchListsMatchesAndClears(s: Store, chatId: int, from: UserId, raw: string)
    requires !IsCommand(ToLower(raw)) && from in s.sessions && s.sessions[from] == SearchItems
    requires s.reports != []
    ensures var q := ToLower(raw);
            var hits := SearchHits(s.reports, q);
            Step(s, TextUpdate(chatId, from, raw)).replies
              == [Outgoing(chatId, if hits == [] then NoSearchResults(q) else SearchResults(q, hits))]
    ensures var t := Step(s, TextUpdate(chatId, from, raw));
            && t.store == Store(s.sessions - {from}, s.reports)
            && |t.replies| == 1
            && (t.replies[0].reply.SearchResults? <==> Shown(t.replies[0].reply) != [])
            && forall r :: r in Shown(t.replies[0].reply) <==> r in s.reports && OccursIn(ToLower(raw), SearchText(r))
  {
    var text := ToLower(raw);
    ToLowerIdempotent(raw);
    forall r ensures r in SearchHits(s.reports, text) <==> r in s.reports && OccursIn(ToLower(text), SearchText(r)) {
      SearchHitsSpec(s.reports, text, r);
    }
  }

  /** A search over an empty store answers "no items" and, returning early, keeps the pending action. */
  lemma SearchOnEmptyStoreKeepsSession(s: Store, chatId: int, from: UserId, raw: string)
    requires !IsCommand(ToLower(raw)) && from in s.sessions && s.sessions[from] == SearchItems
    requires s.reports == []
    ensures Step(s, TextUpdate(chatId, from, raw)) == Transition(s, [Outgoing(chatId, EmptyDatabase)])
  {
  }

  /**
   * A step touches only the sender's entry in the session store: every
   * other user's pending action, present or absent, is as before.
   */
  lemma OnlySenderSessionChanges(s: Store, u: Update)
    ensures u.message.None? ==> Step(s, u) == Transition(s, [])
    ensures u.message.Some? ==> Step(s, u).store.sessions - {u.message.value.from} == s.sessions - {u.message.value.from}
  {
    if u.message.Some? && u.message.value.text.Some? {
      var m := u.message.value;
      var text := ToLower(m.text.value);
      if !IsCommand(text) {
        assert Step(s, u) == Respond(s, m.from, text, m.chatId);
        RespondTouchesOnlySender(s, m.from, text, m.chatId);
      }
    }
  }

  /** The response handler removes at most the sender's own entry. */
  lemma RespondTouchesOnlySender(s: Store, from: UserId, msg: string, chatId: int)
    ensures Respond(s, from, msg, chatId).store.sessions - {from} == s.sessions - {from}
  {
    if from in s.sessions {
      match s.sessions[from]
      case ReportLost =>
        assert Respond(s, from, msg, chatId) == Submit(s, Lost, from, msg, chatId);
        SubmitTouchesOnlySender(s, Lost, from, msg, chatId);
      case ReportFound =>
        assert Respond(s, from, msg, chatId) == Submit(s, Found, from, msg, chatId);
        SubmitTouchesOnlySender(s, Found, from, msg, chatId);
      case SearchItems =>
        RemoveTwice(s.sessions, from);
    }
  }

  /** Removing a user's entry twice is removing it once. */
  lemma RemoveTwice(sessions: map<UserId, Action>, from: UserId)
    ensures (sessions - {from}) - {from} == sessions - {from}
  {
    assert forall u :: u in (sessions - {from}) - {from} <==> u in sessions - {from};
  }

  /** A submission removes at most the sender's own entry. */
  lemma SubmitTouchesOnlySender(s: Store, kind: Kind, from: UserId, msg: string, chatId: int)
    ensures Submit(s, kind, from, msg, chatId).store.sessions - {from} == s.sessions - {from}
  {
    match ParseReport(kind, msg, from)
    case None =>
    case Some(_) =>
      RemoveTwice(s.sessions, from);
  }

  /**
   * What a step does depends on the session store only through the sender's
   * entry: two stores that agree on the reports and on that entry give the
   * same replies and the same reports, and agree on that entry afterwards.
   */
  lemma OtherSessionsIrrelevant(s1: Store, s2: Store, u: Update)
    requires u.message.Some?
    requires s1.reports == s2.reports
    requires var from := u.message.value.from;
             (from in s1.sessions <==> from in s2.sessions)
             && (from in s1.sessions ==> s1.sessions[from] == s2.sessions[from])
    ensures var from := u.message.value.from;
            var t1, t2 := Step(s1, u), Step(s2, u);
            && t1.replies == t2.replies
            && t1.store.reports == t2.store.reports
            && (from in t1.store.sessions <==> from in t2.store.sessions)
            && (from in t1.store.sessions ==> t1.store.sessions[from] == t2.store.sessions[from])
  {
    var m := u.message.value;
    if m.text.Some? && !IsCommand(ToLower(m.text.value)) {
      var text := ToLower(m.text.value);
      assert Step(s1, u) == Respond(s1, m.from, text, m.chatId);
      assert Step(s2, u) == Respond(s2, m.from, text, m.chatId);
      if m.from in s1.sessions {
        match s1.sessions[m.from]
        case ReportLost =>
          assert Respond(s1, m.from, text, m.chatId) == Submit(s1, Lost, m.from, text, m.chatId);
          assert Respond(s2, m.from, text, m.chatId) == Submit(s2, Lost, m.from, text, m.chatId);
        case ReportFound =>
          assert Respond(s1, m.from, text, m.chatId) == Submit(s1, Found, m.from, text, m.chatId);
          assert Respond(s2, m.from, text, m.chatId) == Submit(s2, Found, m.from, text, m.chatId);
        case SearchItems =>
      }
    }
  }

  /**
   * Every step keeps every stored report well formed: submitted by its
   * reporter, with a phone exactly on found items, and lower-case fields
   * apart from the default description.
   */
  lemma {:induction false} StepKeepsReportsWellFormed(s: Store, u: Update)
    requires AllWellFormed(s.reports)
    ensures AllWellFormed(Step(s, u).store.reports)
  {
    var reports := Step(s, u).store.reports;
    if |reports| > |s.reports| {
      var m := u.message.value;
      var raw := m.text.value;
      var text := ToLower(raw);
      var kind := if s.sessions[m.from] == ReportLost then Lost else Found;
      StepIsSubmit(s, m.chatId, m.from, raw);
      ParsedIsWellFormed(kind, text, m.from);
      AppendWellFormed(s.reports, ParseReport(kind, text, m.from).value);
    }
  }

  lemma AppendWellFormed(reports: seq<Report>, r: Report)
    requires AllWellFormed(reports) && WellFormed(r)
    ensures AllWellFormed(reports + [r])
  {
    assert forall i :: 0 <= i < |reports| ==> (reports + [r])[i] == reports[i];
  }

  /** A text message gets exactly one reply, in its own chat; any other update gets none. */
  lemma OneReplyPerTextMessage(s: Store, u: Update)
    ensures var t := Step(s, u);
            if u.message.Some? && u.message.value.text.Some? then
              |t.replies| == 1 && t.replies[0].chatId == u.message.value.chatId
            else
              t.replies == []
  {
  }

  // ---------------------------------------------------------------------------
  // The bot with its stores
  // ---------------------------------------------------------------------------

  /** The two stores, updated in place by each inbound update. */
  class LostAndFoundBot {
    var sessions: map<UserId, Action>
    var reports: seq<Report>

    ghost predicate Valid()
      reads this
    {
      AllWellFormed(reports)
    }

    constructor ()
      ensures Valid()
      ensures sessions == map[] && reports == []
    {
      sessions := map[];
      reports := [];
    }

    /** The webhook handler: performs `Step` on the stores and returns the messages sent. */
    method HandleUpdate(update: Update) returns (out: seq<Outgoing>)
      requires Valid()
      modifies this
      ensures Valid()
      ensures Transition(Store(sessions, reports), out) == Step(old(Store(sessions, reports)), update)
    {
      out := [];
      if update.message.None? {
        return;
      }
      var message := update.message.value;
      if message.text.None? {
        return;
      }
      var chatId := message.chatId;
      var text := ToLower(message.text.value);
      var from := message.from;
      if text == "/start" || text == "menu" {
        out := [Outgoing(chatId, MainMenu)];
      } else if text == "1" {
        out := [Outgoing(chatId, LostPrompt)];
        sessions := sessions[from := ReportLost];
      } else if text == "2" {
        out := [Outgoing(chatId, FoundPrompt)];
        sessions := sessions[from := ReportFound];
      } else if text == "3" {
        out := [Outgoing(chatId, SearchPrompt)];
        sessions := sessions[from := SearchItems];
      } else if text == "4" {
        out := [Outgoing(chatId, DeveloperContact)];
      } else {
        out := HandleTelegramResponse(from, text, chatId);
      }
    }

    /**
     * `handleTelegramResponse`, called only with lowercased text: performs
     * `Respond` on the stores and returns the messages sent.
     */
    method HandleTelegramResponse(from: UserId, msg: string, chatId: int) returns (out: seq<Outgoing>)
      requires Valid() && IsLower(msg)
      modifies this
      ensures Valid()
      ensures Transition(Store(sessions, reports), out) == Respond(old(Store(sessions, reports)), from, msg, chatId)
    {
      if from !in sessions {
        out := [Outgoing(chatId, InvalidCommand)];
        return;
      }
      var action := sessions[from];
      if action == ReportLost {
        out := SubmitReport(Lost, from, msg, chatId);
      } else if action == ReportFound {
        out := SubmitReport(Found, from, msg, chatId);
      } else {
        if |reports| == 0 {
          out := [Outgoing(chatId, EmptyDatabase)];
          return;
        }
        var hits, found := SearchReports(reports, msg);
        out := [Outgoing(chatId, if found then SearchResults(msg, hits) else NoSearchResults(msg))];
        sessions := sessions - {from};
      }
    }

    /** The report branch of `handleTelegramResponse`: performs `Submit` on the stores. */
    method SubmitReport(kind: Kind, from: UserId, msg: string, chatId: int) returns (out: seq<Outgoing>)
      requires Valid() && IsLower(msg)
      modifies this
      ensures Valid()
      ensures Transition(Store(sessions, reports), out) == Submit(old(Store(sessions, reports)), kind, from, msg, chatId)
    {
      var parsed := ParseReport(kind, msg, from);
      if parsed.None? {
        out := [Outgoing(chatId, FormatError(kind))];
        return;
      }
      var reportData := parsed.value;
      ParsedIsWellFormed(kind, msg, from);
      AppendWellFormed(reports, reportData);
      reports := reports + [reportData];
      var reply;
      if kind == Lost {
        var foundItems := FindMatchingFoundItems(reports, reportData.item);
        reply := LostReported(reportData, foundItems);
      } else {
        reply := FoundReported(reportData);
      }
      out := [Outgoing(chatId, reply)];
      sessions := sessions - {from};
    }
  }
}
