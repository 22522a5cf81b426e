/**
 * The report records the bot stores under `reports`, and the parsing of a
 * comma-separated submission into one of them (index.js:81-104).
 */
module Registry {
  import opened JsString

  datatype Option<T> = None | Some(value: T)

  /** Telegram user id; the store keys it by its decimal text, which is injective. */
  type UserId = int

  /** The `type` field: the submitting action with its `report_` prefix removed. */
  datatype Kind = Lost | Found

  /**
   * One stored report. `contactPhone` is present for found items only. The
   * push key Firebase assigns is the record's position in the store, and the
   * ISO timestamp is not part of this model.
   */
  datatype Report = Report(
    kind: Kind,
    item: string,
    location: string,
    description: string,
    contactPhone: Option<string>,
    reporter: UserId)

  /** Description stored for a found item submitted without one (index.js:103). */
  const NoDescription: string := "No description"

  /**
   * What every stored report satisfies: a phone exactly on found items, and,
   * since the text was lowercased before parsing, every text field lower
   * case except the capitalised default description.
   */
  ghost predicate WellFormed(r: Report) {
    && (r.kind == Found <==> r.contactPhone.Some?)
    && IsLower(r.item)
    && IsLower(r.location)
    && (IsLower(r.description) || (r.kind == Found && r.description == NoDescription))
    && (r.contactPhone.Some? ==> IsLower(r.contactPhone.value))
  }

  ghost predicate AllWellFormed(reports: seq<Report>) {
    forall i :: 0 <= i < |reports| ==> WellFormed(reports[i])
  }

  /**
   * Parses `ITEM, LOCATION, THIRD[, ...]` submitted by `from` into a report of
   * the given kind; `None` when the text has fewer than three comma-separated
   * parts (index.js:81-104).
   */
  function ParseReport(kind: Kind, msg: string, from: UserId): (r: Option<Report>)
    ensures r.Some? ==> r.value.kind == kind && r.value.reporter == from
    ensures r.Some? ==> (r.value.kind == Found <==> r.value.contactPhone.Some?)
  {
    var parts := Split(msg, ',');
    if |parts| < 3 then None
    else
      var item := Trim(parts[0]);
      var location := Trim(parts[1]);
      var thirdPart := Trim(parts[2]);
      match kind
      case Lost =>
        Some(Report(Lost, item, location, Trim(Join(parts[2..], ',')), None, from))
      case Found =>
        var rest := Trim(Join(parts[3..], ','));
        Some(Report(Found, item, location, if rest == "" then NoDescription else rest, Some(thirdPart), from))
  }

  /** A submission is accepted exactly when it holds at least two commas. */
  lemma ParseAcceptsTwoCommas(kind: Kind, msg: string, from: UserId)
    ensures ParseReport(kind, msg, from).Some? <==> Count(msg, ',') >= 2
  {
    SplitCount(msg, ',');
  }

  /** The text, cut at its first two commas. */
  lemma {:induction false} CutAtTwoCommas(msg: string)
    requires |Split(msg, ',')| >= 3
    ensures var parts := Split(msg, ',');
            msg == parts[0] + "," + parts[1] + "," + Join(parts[2..], ',')
  {
    var parts := Split(msg, ',');
    JoinSplit(msg, ',');
    assert parts[1..][1..] == parts[2..];
  }

  /** Splitting at two leading separator-free pieces. */
  lemma {:induction false} SplitTwoPieces(msg: string, a: string, b: string, rest: string)
    requires msg == a + "," + b + "," + rest
    requires ',' !in a && ',' !in b
    ensures Split(msg, ',') == [a] + ([b] + Split(rest, ','))
  {
    var t := b + [','] + rest;
    assert msg == a + [','] + t;
    SplitPiece(a, ',', t);
    SplitPiece(b, ',', rest);
  }

  /**
   * A lost report takes the item and location from the text before the first
   * and second commas and the description from all the text after the second
   * comma, commas included; each is trimmed.
   */
  lemma {:induction false} LostReportFields(msg: string, from: UserId, a: string, b: string, rest: string)
    requires msg == a + "," + b + "," + rest
    requires ',' !in a && ',' !in b
    ensures ParseReport(Lost, msg, from) == Some(Report(Lost, Trim(a), Trim(b), Trim(rest), None, from))
  {
    SplitTwoPieces(msg, a, b, rest);
    JoinSplit(rest, ',');
    var parts := Split(msg, ',');
    assert parts[0] == a && parts[1] == b && parts[2..] == Split(rest, ',');
  }

  /** The pieces of the text after the second comma of a found-item submission. */
  lemma {:induction false} SplitPhoneTail(phone: string, d: Option<string>)
    requires ',' !in phone
    ensures var tail := phone + (if d.Some? then "," + d.value else "");
            Split(tail, ',') == [phone] + (if d.Some? then Split(d.value, ',') else [])
  {
    if d.Some? {
      var tail := phone + ("," + d.value);
      assert tail == phone + [','] + d.value;
      SplitPiece(phone, ',', d.value);
      assert Split(tail, ',') == [phone] + Split(d.value, ',');
    } else {
      assert phone + "" == phone;
      SplitSingle(phone, ',');
    }
  }

  /**
   * A found report takes the phone, unchecked, from the text between the
   * second and third commas, and the description from the text after the
   * third comma, or the default when that is absent or blank.
   */
  lemma {:induction false} FoundReportFields(msg: string, from: UserId, a: string, b: string, phone: string,
                                             d: Option<string>)
    requires msg == a + "," + b + "," + phone + (if d.Some? then "," + d.value else "")
    requires ',' !in a && ',' !in b && ',' !in phone
    ensures var desc := if d.Some? && Trim(d.value) != "" then Trim(d.value) else NoDescription;
            ParseReport(Found, msg, from) == Some(Report(Found, Trim(a), Trim(b), desc, Some(Trim(phone)), from))
  {
    var tail := phone + (if d.Some? then "," + d.value else "");
    assert msg == a + "," + b + "," + tail;
    SplitTwoPieces(msg, a, b, tail);
    SplitPhoneTail(phone, d);
    var parts := Split(msg, ',');
    var more := if d.Some? then Split(d.value, ',') else [];
    assert parts == [a] + ([b] + ([phone] + more));
    assert parts[0] == a && parts[1] == b && parts[2] == phone && parts[3..] == more;
    if d.Some? {
      JoinSplit(d.value, ',');
    }
  }

  /** Rejoining and trimming the lower-case pieces from `n` on gives lower-case text. */
  lemma {:induction false} RejoinedLower(parts: seq<string>, n: nat)
    requires n <= |parts|
    requires forall i :: 0 <= i < |parts| ==> IsLower(parts[i])
    ensures IsLower(Trim(Join(parts[n..], ',')))
  {
    forall i | 0 <= i < |parts[n..]| ensures IsLower(parts[n..][i]) {
      assert parts[n..][i] == parts[i + n];
    }
    JoinLower(parts[n..], ',');
    TrimLower(Join(parts[n..], ','));
  }

  /** A lowercase submission parses into a well-formed report. */
  lemma {:induction false} ParsedIsWellFormed(kind: Kind, msg: string, from: UserId)
    requires IsLower(msg)
    requires ParseReport(kind, msg, from).Some?
    ensures WellFormed(ParseReport(kind, msg, from).value)
  {
    var parts := Split(msg, ',');
    SplitLower(msg, ',');
    TrimLower(parts[0]);
    TrimLower(parts[1]);
    match kind
    case Lost =>
      RejoinedLower(parts, 2);
    case Found =>
      TrimLower(parts[2]);
      RejoinedLower(parts, 3);
  }
}
