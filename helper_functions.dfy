/**
 * The window's glue to the `WorkshopsTool` class: the search the window's fields select,
 * the text shown after a search, and the message shown after a database update.
 */
module HelperFunctions {
  import opened Wrappers
  import opened Strings
  import opened Dates
  import opened Pattern
  import opened Records
  import opened Layout
  import opened Messages
  import opened WorkshopTool

  /**
   * `update_searched_workshops`: a non-empty id field searches by id, where finding no
   * workshop gives an empty list; otherwise a checked date box searches the phrase matches
   * by date range; otherwise the phrase alone is searched. A result is always the tool's
   * latest search, with the counters over it; a signed-up count or a date that does not
   * parse is a ValueError.
   */
  method UpdateSearchedWorkshops(ws: WorkshopsTool, db: seq<Workshop>, idText: string, useDate: bool,
                                 first: Date, last: Date) returns (workshops: Result<seq<Workshop>>)
    requires idText == "" ==> Searchable(Lower(ws.searchPhrase))
    modifies ws
    ensures ws.searchPhrase == old(ws.searchPhrase)
    ensures workshops.Err? ==> workshops.error == ValueError
    ensures workshops.Ok? ==> (workshops.value == ws.searchedWorkshops
      && ws.numberOfWorkshops == |ws.searchedWorkshops|
      && SignedUpTotal(ws.searchedWorkshops) == Some(ws.numberOfParticipants))
    ensures SelectedSearch(idText, useDate) == ById && FirstWithId(db, idText).None? ==> workshops == Ok([])
    ensures SelectedSearch(idText, useDate) == ById && FirstWithId(db, idText).Some? ==>
      var w := db[FirstWithId(db, idText).value];
      (workshops.Ok? <==> IsInt(w.signedUp)) && (workshops.Ok? ==> workshops.value == [w])
    ensures SelectedSearch(idText, useDate) == ByDateRange ==>
      var matches := PhraseMatches(ws.searchPhrase, db);
      (workshops.Ok? <==> (SignedUpTotal(matches).Some? && ValidDate(first) && ValidDate(last)
                          && DateWindowMatches(matches, first, last).Some?
                          && SignedUpTotal(DateWindowMatches(matches, first, last).value).Some?))
      && (workshops.Ok? ==> (DateWindowMatches(matches, first, last).Some?
                             && workshops.value == DateWindowMatches(matches, first, last).value))
    ensures SelectedSearch(idText, useDate) == ByPhrase ==>
      var matches := PhraseMatches(ws.searchPhrase, db);
      (workshops.Ok? <==> SignedUpTotal(matches).Some?) && (workshops.Ok? ==> workshops.value == matches)
  {
    if idText != "" {
      var found := ws.GetMatchingWorkshopsById(db, idText);
      if found == Err(AttributeError) {
        workshops := Ok([]);
      } else {
        workshops := found;
        if found.Ok? {
          var w := db[FirstWithId(db, idText).value];
          SignedUpTotalSnoc([], w);
          assert [] + [w] == [w];
        }
      }
    } else if useDate {
      workshops := ws.GetMatchingWorkshopsByDateRange(db, first, last);
    } else {
      workshops := ws.GetMatchingWorkshops(db);
    }
  }

  /**
   * `get_workshop_display_text`: the counters, the detail block of the tool's latest search
   * when asked for, and the e-mails of that search, as one text.
   */
  method GetWorkshopDisplayText(ws: WorkshopsTool, c: Checks, buttonCheck: bool) returns (text: string)
    ensures text == Concat(DisplayPieces(ws.numberOfWorkshops, ws.numberOfParticipants, buttonCheck, c,
                                         ViewsOfWorkshops(ws.searchedWorkshops),
                                         EmailText(EmailsOf(Rosters(ws.searchedWorkshops)))))
  {
    var displayText := [MatchingHeading + IntToString(ws.numberOfWorkshops) + "\n\n"];
    displayText := displayText + [SignedUpHeading + IntToString(ws.numberOfParticipants) + "\n\n"];
    assert displayText == CountPieces(ws.numberOfWorkshops, ws.numberOfParticipants);
    if buttonCheck {
      displayText := AppendDetails(c, displayText, ViewsOfWorkshops(ws.searchedWorkshops));
    }
    assert displayText == CountPieces(ws.numberOfWorkshops, ws.numberOfParticipants)
      + if buttonCheck then DetailPieces(c, ViewsOfWorkshops(ws.searchedWorkshops)) else [];
    var emails := ws.GetEmails();
    displayText := displayText + [EmailsHeading + emails];
    text := Concat(displayText);
  }

  /**
   * `generate_workshop_info`: the phrase is stored escaped, the selected search runs, and
   * the text shows the tool's latest search with counters that agree with it. An id that
   * matches nothing shows zero workshops, zero sign-ups and the no-e-mails notice. A
   * ValueError from the search leaves the output field cleared.
   */
  method GenerateWorkshopInfo(ws: WorkshopsTool, db: seq<Workshop>, phrase: string, idText: string, useDate: bool,
                              first: Date, last: Date, c: Checks) returns (text: Result<string>)
    requires idText == "" ==> Searchable(Lower(Escape(phrase)))
    modifies ws
    ensures ws.searchPhrase == Escape(phrase)
    ensures text.Err? ==> text.error == ValueError
    ensures text.Ok? ==> (ws.numberOfWorkshops == |ws.searchedWorkshops|
      && SignedUpTotal(ws.searchedWorkshops) == Some(ws.numberOfParticipants)
      && text.value == Concat(DisplayPieces(|ws.searchedWorkshops|, ws.numberOfParticipants, DetailsChecked(c), c,
                                            ViewsOfWorkshops(ws.searchedWorkshops),
                                            EmailText(EmailsOf(Rosters(ws.searchedWorkshops))))))
    ensures SelectedSearch(idText, useDate) == ById && FirstWithId(db, idText).None? ==>
      text == Ok(Concat(DisplayPieces(0, 0, DetailsChecked(c), c, [], NoEmails)))
    ensures SelectedSearch(idText, useDate) == ById && FirstWithId(db, idText).Some? ==>
      var w := db[FirstWithId(db, idText).value];
      (text.Ok? <==> IsInt(w.signedUp)) && (text.Ok? ==> ws.searchedWorkshops == [w])
    ensures SelectedSearch(idText, useDate) == ByDateRange ==>
      var matches := PhraseMatches(Escape(phrase), db);
      (text.Ok? <==> (SignedUpTotal(matches).Some? && ValidDate(first) && ValidDate(last)
                     && DateWindowMatches(matches, first, last).Some?
                     && SignedUpTotal(DateWindowMatches(matches, first, last).value).Some?))
      && (text.Ok? ==> (DateWindowMatches(matches, first, last).Some?
                        && ws.searchedWorkshops == DateWindowMatches(matches, first, last).value))
    ensures SelectedSearch(idText, useDate) == ByPhrase ==>
      var matches := PhraseMatches(Escape(phrase), db);
      (text.Ok? <==> SignedUpTotal(matches).Some?) && (text.Ok? ==> ws.searchedWorkshops == matches)
  {
    ws.SetSearchPhrase(phrase);
    var workshops := UpdateSearchedWorkshops(ws, db, idText, useDate, first, last);
    if workshops.Err? {
      return Err(workshops.error);
    }
    var buttonCheck := c.id || c.startDate || c.partNumbers || c.name || c.url;
    var shown := GetWorkshopDisplayText(ws, c, buttonCheck);
    text := Ok(shown);
  }

  /**
   * `update_database`: the output field is cleared, then shows the welcome text after an
   * update, the offline text on Python's own ConnectionError (this module imports no other),
   * the server-error text on a TypeError and the missing-file text on a missing file. The
   * `requests` ConnectionError raised when the server cannot be reached is not caught, and
   * neither is any other exception: they leave the handler (`None`) with the field cleared.
   */
  function UpdateDatabaseText(outcome: UpdateOutcome): (r: Option<string>)
    ensures r.None? <==> outcome == Raised(RequestsConnectionError) || outcome == Raised(Unhandled)
    ensures outcome == Updated ==> r == Some(WelcomeText())
    ensures outcome == Raised(BuiltinConnectionError) ==> r == Some(OfflineText())
    ensures outcome == Raised(BadServerReply) ==> r == Some(ServerErrorText)
    ensures outcome.Raised? && outcome.error.MissingFile? ==> r == Some(MissingFileText)
  {
    match outcome
    case Updated => Some(WelcomeText())
    case Raised(BuiltinConnectionError) => Some(OfflineText())
    case Raised(BadServerReply) => Some(ServerErrorText)
    case Raised(MissingFile(_)) => Some(MissingFileText)
    case Raised(RequestsConnectionError) => None
    case Raised(Unhandled) => None
  }

  /** Each message shown names one kind of outcome: the four texts differ. */
  lemma UpdateDatabaseTextTellsApart(a: UpdateOutcome, b: UpdateOutcome)
    ensures UpdateDatabaseText(a).Some? && UpdateDatabaseText(a) == UpdateDatabaseText(b) ==> SameCase(a, b)
  {
    assert ServerErrorText[0] == 'S' && MissingFileText[0] == 'M';
  }
}
