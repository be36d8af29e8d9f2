/**
 * The older windowed program over the `Workshops` class: the search its fields select, the
 * text it shows after a search, and the message it shows after a database update.
 */
module WorkshopProgramMain {
  import opened Wrappers
  import opened Strings
  import opened Dates
  import opened Pattern
  import opened Records
  import opened Layout
  import opened Messages
  import opened Workshops
  import WorkshopProgram

  /** The date bound the window passes: the calendar's date when the date box is checked. */
  function DateBound(useDate: bool, date: Date): (r: Option<Date>)
    ensures r.Some? <==> useDate
    ensures r.Some? ==> r.value == date
  {
    if useDate then Some(date) else None
  }

  /**
   * `generateWorkshopInfo`: the phrase is stored escaped, then the selected search runs. An
   * id in the id field reaches a call with too few arguments, a TypeError. Otherwise the
   * text shows the phrase search's rows (within the calendar dates when the date box is
   * checked), with counters that are their number and the sum of their sign-ups, and their
   * e-mails; a search error leaves the output field cleared.
   */
  method GenerateWorkshopInfo(ws: Workshops, db: seq<Row>, phrase: string, idText: string, useDate: bool,
                              first: Date, last: Date, c: Checks) returns (text: Result<string>)
    requires idText == "" ==> Searchable(Lower(Escape(phrase)))
    modifies ws
    ensures ws.searchPhrase == Escape(phrase)
    ensures idText != "" ==> text == Err(TypeError)
    ensures idText == "" ==>
      var found := PhraseSearch(Escape(phrase), db, DateBound(useDate, first), DateBound(useDate, last));
      (text.Ok? <==> found.Ok?) && (text.Err? ==> text.error == found.error)
      && (text.Ok? ==> (RowsSignedUp(found.value).Some?
        && text.value == Concat(DisplayPieces(|found.value|, RowsSignedUp(found.value).value, DetailsChecked(c), c,
                                              ViewsOfRows(found.value), EmailText(EmailsOf(RowRosters(found.value)))))))
  {
    ws.SetPhrase(phrase);
    var workshops;
    if idText != "" {
      workshops := ws.GetMatchingWorkshops(db, Some(idText), None, None);
    } else if useDate {
      workshops := ws.GetMatchingWorkshops(db, None, Some(first), Some(last));
    } else {
      workshops := ws.GetMatchingWorkshops(db, None, None, None);
    }
    if workshops.Err? {
      return Err(workshops.error);
    }
    var displayText := [MatchingHeading + IntToString(ws.numberOfWorkshops) + "\n\n"];
    displayText := displayText + [SignedUpHeading + IntToString(ws.numberOfParticipants) + "\n\n"];
    assert displayText == CountPieces(ws.numberOfWorkshops, ws.numberOfParticipants);
    if c.id || c.startDate || c.partNumbers || c.name || c.url {
      displayText := AppendDetails(c, displayText, ViewsOfRows(workshops.value));
    }
    assert displayText == CountPieces(ws.numberOfWorkshops, ws.numberOfParticipants)
      + if DetailsChecked(c) then DetailPieces(c, ViewsOfRows(workshops.value)) else [];
    var emails := ws.GetEmails(workshops.value);
    displayText := displayText + [EmailsHeading + emails];
    text := Ok(Concat(displayText));
  }

  /** The lines this program shows after a successful update; the second one is empty. */
  const WelcomeLines: seq<string> := [
    "Welcome!",
    "",
    "This program will allow you to seach current workshops using a phrase.",
    "Type a phrase that you would like to search in the \"Phrase:\" field.",
    "The phrase does not have to be case sensative.",
    "Leave the \"Phrase:\" field blank to get all current workshops."]

  /** What this program shows for any missing file. */
  const CredentialsText: string := "Please enter your login credentials."

  /** This program's welcome text starts with its first line's `W`. */
  function WelcomeText(): (r: string)
    ensures |r| > 0 && r[0] == 'W'
  {
    JoinHead(WelcomeLines, "\n");
    Join(WelcomeLines, "\n")
  }

  /**
   * `updateDatabase`: the output field is cleared; then its own welcome text after an
   * update, the offline text on the `requests` ConnectionError it imports, the server-error
   * text on a TypeError, and a request for credentials after any missing file. Python's own
   * ConnectionError and any other exception leave the handler (`None`).
   */
  function UpdateDatabaseText(outcome: UpdateOutcome): (r: Option<string>)
    ensures r.None? <==> outcome == Raised(BuiltinConnectionError) || outcome == Raised(Unhandled)
    ensures outcome == Updated ==> r == Some(WelcomeText())
    ensures outcome == Raised(RequestsConnectionError) ==> r == Some(Messages.OfflineText())
    ensures outcome == Raised(BadServerReply) ==> r == Some(ServerErrorText)
    ensures outcome.Raised? && outcome.error.MissingFile? ==> r == Some(CredentialsText)
  {
    match outcome
    case Updated => Some(WelcomeText())
    case Raised(RequestsConnectionError) => Some(Messages.OfflineText())
    case Raised(BadServerReply) => Some(ServerErrorText)
    case Raised(MissingFile(_)) => Some(CredentialsText)
    case Raised(BuiltinConnectionError) => None
    case Raised(Unhandled) => None
  }

  /**
   * This program shows what the newer program shows on either connection error, a bad
   * reply or an unhandled error; it greets with its own welcome, and after a missing file
   * it asks for credentials instead.
   */
  lemma UpdateDatabaseTextComparedWithNewer(outcome: UpdateOutcome)
    ensures outcome.Raised? && !outcome.error.MissingFile? ==>
      UpdateDatabaseText(outcome) == WorkshopProgram.UpdateDatabaseText(outcome)
    ensures outcome == Updated ==> UpdateDatabaseText(outcome) != WorkshopProgram.UpdateDatabaseText(outcome)
    ensures outcome.Raised? && outcome.error.MissingFile? ==>
      UpdateDatabaseText(outcome) != WorkshopProgram.UpdateDatabaseText(outcome)
  {
    if outcome.Raised? && outcome.error.MissingFile? {
      assert CredentialsText[0] == 'P' && MissingFileText[0] == 'M';
    }
  }

  /** Each message shown names one kind of outcome: the four texts differ. */
  lemma UpdateDatabaseTextTellsApart(a: UpdateOutcome, b: UpdateOutcome)
    ensures UpdateDatabaseText(a).Some? && UpdateDatabaseText(a) == UpdateDatabaseText(b) ==> SameCase(a, b)
  {
    assert ServerErrorText[0] == 'S' && CredentialsText[0] == 'P';
  }
}
