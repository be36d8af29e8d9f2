/**
 * The first windowed program over table rows: the text it shows after a search, and the
 * message it shows after a database update. The class it searches with is not part of
 * this model, so the counters, the rows found and their e-mail text are inputs here.
 */
module WorkshopProgram {
  import opened Wrappers
  import opened Strings
  import opened Records
  import opened Layout
  import opened Messages
  import HelperFunctions

  /**
   * The text `generate_workshop_info` shows once the selected search has run: the two
   * count lines, the rows' detail block when a workshop field is checked, and the e-mails.
   */
  method GenerateWorkshopText(numberOfWorkshops: int, numberOfParticipants: int, emails: string, c: Checks,
                              workshops: seq<Row>) returns (text: string)
    ensures text == Concat(DisplayPieces(numberOfWorkshops, numberOfParticipants, DetailsChecked(c), c,
                                         ViewsOfRows(workshops), emails))
    ensures !DetailsChecked(c) ==>
      text == (MatchingHeading + IntToString(numberOfWorkshops) + "\n\n")
              + (SignedUpHeading + IntToString(numberOfParticipants) + "\n\n") + "" + (EmailsHeading + emails)
  {
    var displayText := [MatchingHeading + IntToString(numberOfWorkshops) + "\n\n"];
    displayText := displayText + [SignedUpHeading + IntToString(numberOfParticipants) + "\n\n"];
    assert displayText == CountPieces(numberOfWorkshops, numberOfParticipants);
    if c.id || c.startDate || c.partNumbers || c.name || c.url {
      displayText := AppendDetails(c, displayText, ViewsOfRows(workshops));
    }
    assert displayText == CountPieces(numberOfWorkshops, numberOfParticipants)
      + if DetailsChecked(c) then DetailPieces(c, ViewsOfRows(workshops)) else [];
    displayText := displayText + [EmailsHeading + emails];
    text := Concat(displayText);
    DisplayTextShape(numberOfWorkshops, numberOfParticipants, DetailsChecked(c), c, ViewsOfRows(workshops), emails);
  }

  /**
   * The file name `str(e).split("'")[-2]` reads from a FileNotFoundError's text: the
   * second-to-last piece between single quotes; an IndexError when there is no quote.
   */
  function MissingFileName(message: string): (r: Result<string>)
    ensures r.Err? <==> !('\'' in message)
    ensures r.Err? ==> r.error == IndexError
  {
    var parts := Split(message, "'");
    SplitCharLength(message, '\'');
    CountAbsentIff(message, '\'');
    if |parts| < 2 then Err(IndexError) else Ok(parts[|parts| - 2])
  }

  /** The usual message, which ends with the quoted file name, gives that name back. */
  lemma MissingFileNameOfQuoted(prefix: string, name: string)
    requires '\'' !in prefix && '\'' !in name
    ensures MissingFileName(prefix + "'" + name + "'") == Ok(name)
  {
    var parts := [prefix, name, ""];
    assert Join(parts, "'") == prefix + "'" + name + "'" by {
      assert parts[1..] == [name, ""];
      assert parts[1..][1..] == [""];
      assert Join(parts[1..], "'") == name + "'" + "";
      assert name + "'" + "" == name + "'";
    }
    SplitJoinChar(parts, '\'');
  }

  /**
   * `update_database`: the output field is cleared; then the welcome text after an update,
   * the offline text on the `requests` ConnectionError this module imports, and the
   * server-error text on a TypeError, with the same texts as the helper module. A missing
   * file shows the missing-file text only when the file named in the error is
   * `connection_info.json`, and nothing otherwise; an error text without a quote raises an
   * IndexError from the handler (`None`). Python's own ConnectionError is not caught.
   */
  function UpdateDatabaseText(outcome: UpdateOutcome): (r: Option<string>)
    ensures outcome == Updated ==> r == Some(WelcomeText())
    ensures outcome == Raised(RequestsConnectionError) ==> r == Some(OfflineText())
    ensures outcome == Raised(BadServerReply) ==> r == Some(ServerErrorText)
    ensures outcome == Raised(BuiltinConnectionError) || outcome == Raised(Unhandled) ==> r.None?
    ensures outcome.Raised? && outcome.error.MissingFile? ==>
      var name := MissingFileName(outcome.error.message);
      (r.None? <==> name.Err?)
      && (name.Ok? ==> r == Some(if name.value == "connection_info.json" then MissingFileText else ""))
  {
    match outcome
    case Updated => Some(WelcomeText())
    case Raised(RequestsConnectionError) => Some(OfflineText())
    case Raised(BadServerReply) => Some(ServerErrorText)
    case Raised(BuiltinConnectionError) => None
    case Raised(Unhandled) => None
    case Raised(MissingFile(message)) =>
      match MissingFileName(message)
      case Err(_) => None
      case Ok(name) => if name == "connection_info.json" then Some(MissingFileText) else Some("")
  }

  /**
   * This program shows what the helper module shows after an update, a bad reply or an
   * unhandled error. The two connection errors are handled the other way round: the one
   * each catches escapes the other. After a missing file they agree exactly when the error
   * names `connection_info.json`.
   */
  lemma UpdateDatabaseTextAgrees(outcome: UpdateOutcome)
    ensures outcome == Updated || outcome == Raised(BadServerReply) || outcome == Raised(Unhandled) ==>
      UpdateDatabaseText(outcome) == HelperFunctions.UpdateDatabaseText(outcome)
    ensures outcome == Raised(RequestsConnectionError) ==>
      UpdateDatabaseText(outcome).Some? && HelperFunctions.UpdateDatabaseText(outcome).None?
    ensures outcome == Raised(BuiltinConnectionError) ==>
      UpdateDatabaseText(outcome).None? && HelperFunctions.UpdateDatabaseText(outcome).Some?
    ensures outcome.Raised? && outcome.error.MissingFile? ==>
      (UpdateDatabaseText(outcome) == HelperFunctions.UpdateDatabaseText(outcome)
       <==> MissingFileName(outcome.error.message) == Ok("connection_info.json"))
  {
  }

  /** Each message shown names one kind of outcome: the texts differ. */
  lemma UpdateDatabaseTextTellsApart(a: UpdateOutcome, b: UpdateOutcome)
    ensures UpdateDatabaseText(a).Some? && UpdateDatabaseText(a) == UpdateDatabaseText(b) ==> SameCase(a, b)
  {
    assert ServerErrorText[0] == 'S' && MissingFileText[0] == 'M';
  }
}
