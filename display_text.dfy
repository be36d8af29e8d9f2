/**
 * The display-text module: the pieces of the text shown after a search over table rows,
 * given the counters and the e-mail text of the search. The class it takes these from
 * is not part of this model, so they are inputs here.
 */
module DisplayText {
  import opened Strings
  import opened Records
  import opened Layout

  /**
   * `get_base_display_text`: the two count lines, the rows' detail block when asked for,
   * and the e-mail section, as the list of pieces (not yet joined).
   */
  method GetBaseDisplayText(numberOfWorkshops: int, numberOfParticipants: int, emails: string, c: Checks,
                            workshops: seq<Row>, buttonCheck: bool) returns (displayText: seq<string>)
    ensures displayText == DisplayPieces(numberOfWorkshops, numberOfParticipants, buttonCheck, c,
                                         ViewsOfRows(workshops), emails)
    ensures Concat(displayText)
      == (MatchingHeading + IntToString(numberOfWorkshops) + "\n\n")
         + (SignedUpHeading + IntToString(numberOfParticipants) + "\n\n")
         + Concat(if buttonCheck then DetailPieces(c, ViewsOfRows(workshops)) else [])
         + (EmailsHeading + emails)
  {
    displayText := [MatchingHeading + IntToString(numberOfWorkshops) + "\n\n"];
    displayText := displayText + [SignedUpHeading + IntToString(numberOfParticipants) + "\n\n"];
    assert displayText == CountPieces(numberOfWorkshops, numberOfParticipants);
    if buttonCheck {
      displayText := AppendDetails(c, displayText, ViewsOfRows(workshops));
    }
    displayText := displayText + [EmailsHeading + emails];
    DisplayTextShape(numberOfWorkshops, numberOfParticipants, buttonCheck, c, ViewsOfRows(workshops), emails);
  }
}
