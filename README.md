# WorkshopApp search and record shaping, modelled in Dafny

WorkshopApp is a desktop tool for workshop instructors. It scrapes the instructor's workshop
listings, session pages and participant rosters, stores them, and lets the instructor search
them by phrase, by date range or by workshop id. It then shows the matching workshops, the
number of sign-ups and the participants' e-mails, and exports rows to spreadsheets. There are
two generations of the search code:

- the newer `WorkshopsTool` (`workshop_tool.py`), which stores workshop dictionaries and is
  driven by `helper_functions.py`, `display_text.py` and `workshop_program.py`;
- the older `Workshops` class (`workshops.py`), which reads positional table rows and is
  driven by `workshopProgramMain.py`.

The two generations disagree on the date filter, on id search and on error texts, so each
has its own model.

The project models:

- **Search phrase escaping.** The escaping is the thirteen sequential `str.replace` calls over
  `[]\.^$*+{}|()`. Because the backslash is replaced after the brackets, `[` and `]` end up
  behind two backslashes.
- **Phrase search.** `re.search` of the lower-cased escaped phrase in the lower-cased name is
  modelled for patterns that stand for one fixed text (module `Pattern`).
- **Date filters.** `WorkshopsTool` compares the parsed `"%m/%d/%Y %I:%M %p"` start with the
  midnights of the two days. `Workshops` compares calendar days, both included.
- **Id search.** `WorkshopsTool` keeps the first workshop with the id. Returning after no
  match reads a misspelled attribute, an AttributeError. `Workshops` keeps every row with the
  id. Its dispatcher calls that search with too few arguments, a TypeError.
- **Counters.** The workshop and participant counters are kept by both classes, and a
  signed-up count that is not an integer is a ValueError.
- **E-mail text.** The e-mails are joined by `";\n"`, with a fixed notice when the join is
  empty.
- **Scraped pages.** The positional rules turn scraped page text into workshop records: the
  listing row, the session page's location and dates, and the roster rows.
- **Spreadsheet rows.** The fourteen-cell spreadsheet row, and the `"Mon DD, Mon DD"` text of
  a workshop's meeting days.
- **Sheet requests.** The Google Sheets request builder and its list of sheets.
- **Connection data.** The connection tool's lookups, the sign-in payload, the participant
  page address and the credential update.
- **Display text.** The display text after a search: the count lines, the detail block of
  checked fields, and the e-mail section.
- **Update messages.** The message chosen after a database update for each way the update
  ends. The helper module's handler names Python's own `ConnectionError`, while the two
  programs import the unrelated one of the `requests` library, so each catches what the
  other lets escape.
- **Main window.** The two main windows' font-size stepping, the credentials and export
  dialogs' acceptance rule, `strip_folder_id`, and the result message boxes.

Web pages are given as the texts of their elements. The database is a sequence of records.
Dialog input is given as values. Files are given as their contents. Python exceptions are the
`Err` case of a `Result`.

## Model

| member | source | states |
|---|---|---|
| Pattern.EscapeIsEach | Workshop_App/workshop_tool.py:211-215 | the thirteen sequential replacements act character by character: each symbol gains its backslash(es) and every other character, `?` included, is unchanged |
| Pattern.EscapeOneChar | Workshop_App/workshop_tool.py:211-213 | one character escapes to exactly `EscapedChar`: two backslashes before `[` or `]`, a doubled backslash, one backslash before the other symbols, itself otherwise |
| Pattern.EscapeBracket | Workshop_App/workshop_tool.py:211-213 | `[` and `]` end up preceded by two backslashes, because the later backslash replacement doubles the one inserted before them |
| Pattern.EscapeBackslash | Workshop_App/workshop_tool.py:211-213 | a backslash in the phrase becomes two backslashes |
| Pattern.EscapeOtherSymbol | Workshop_App/workshop_tool.py:211-213 | every symbol after the backslash in the list gets exactly one backslash |
| Pattern.EscapeFromAppend | Workshop_App/workshop_tool.py:212-213 | the replacements distribute over concatenation: escaping never joins characters across a boundary |
| Pattern.LiteralOfEscape | Workshop_App/workshop_tool.py:147 | a phrase without `?`, `[` or `]` escapes to a pattern that stands for the phrase itself |
| Pattern.OpenBracketNotLiteral | Workshop_App/workshop_tool.py:147 | the escaped `[` is not a fixed-text pattern (an escaped backslash, then an unclosed set) |
| Pattern.CloseBracketFindsBackslash | Workshop_App/workshop_tool.py:147 | the escaped `]` searches for the two characters `\]`, not for `]` |
| Pattern.SearchEscaped | Workshop_App/workshop_tool.py:147 | the case-insensitive search of an escaped phrase finds a name exactly when the lower-cased phrase occurs in the lower-cased name |
| Pattern.EmptyPhraseFindsAll | Workshop_App/workshop_tool.py:147 | the empty phrase finds every name |
| WorkshopTool.PhraseMatchesMembers | Workshop_App/workshop_tool.py:146-148 | a workshop is kept exactly when it is stored and the pattern finds its lower-cased name |
| WorkshopTool.PhraseMatchesAppend | Workshop_App/workshop_tool.py:146-148 | the matches keep database order: filtering a concatenation filters each part |
| WorkshopTool.PhraseMatchesContaining | Workshop_App/workshop_tool.py:146-148 | for a phrase without `?`, `[`, `]` the escaped phrase keeps exactly the names containing the phrase, ignoring case |
| WorkshopTool.EmptyPhraseMatchesAll | Workshop_App/workshop_tool.py:146-148 | the empty phrase keeps every stored workshop, in order |
| WorkshopTool.SignedUpTotalDefined | Workshop_App/workshop_tool.py:149 | the participant sum is defined exactly when every signed-up count reads as an `int` |
| WorkshopTool.SignedUpTotalAppend | Workshop_App/workshop_tool.py:149 | the sum over a concatenation is the sum of the parts' sums |
| Strings.ParseIntOfIntToString | Workshop_App/workshop_tool.py:149 | `int` reads back every integer as `str` writes it, negative ones included |
| WorkshopTool.BadCountMatched | Workshop_App/workshop_tool.py:147-149 | one matched workshop with a non-integer count makes the whole search's sum undefined |
| WorkshopTool.MatchAndCount | Workshop_App/workshop_tool.py:146-149 | the loop fails exactly when the matches' sum is undefined; otherwise it builds exactly the phrase matches and their sum |
| WorkshopTool.WorkshopsTool.GetMatchingWorkshops | Workshop_App/workshop_tool.py:137-153 | success exactly when the matches' counts are all integers (else ValueError); the result is the stored last search, the phrase matches in order, with the counters their number and their sign-up sum |
| Dates.MidnightWindow | Workshop_App/workshop_tool.py:163-171 | comparing with the two midnights keeps the first day and the days between whole, but on the last day only its first minute |
| Dates.ParseFormatDateTime | Workshop_App/workshop_tool.py:169 | reading back the `"%m/%d/%Y %I:%M %p"` text of any valid time gives that time |
| Dates.ParseDateTimeOfFormat | Workshop_App/workshop_tool.py:169 | `%I` and `%p` together give back the 24-hour hour of the formatted time |
| WorkshopTool.DateWindowDefined | Workshop_App/workshop_tool.py:168-169 | the date filter is defined exactly when every start parses |
| WorkshopTool.DateWindowMembers | Workshop_App/workshop_tool.py:168-172 | a workshop is kept exactly when its parsed start lies between the two midnights |
| WorkshopTool.DateWindowDays | Workshop_App/workshop_tool.py:163-172 | a workshop is kept exactly when its day is within the range, and on the last day only when it starts at 00:00 |
| WorkshopTool.WindowUncounted | Workshop_App/workshop_tool.py:171-173 | a kept workshop with a non-integer count makes the kept workshops' sum undefined |
| WorkshopTool.KeepAndCount | Workshop_App/workshop_tool.py:168-173 | the loop fails exactly when a start does not parse or the kept sum is undefined; otherwise it builds exactly the date filter's result and its sum |
| WorkshopTool.WorkshopsTool.KeepDateWindow | Workshop_App/workshop_tool.py:161-176 | the stored result is the date filter of the given workshops, with both counters recomputed over it; a ValueError exactly when a start or a kept count does not parse |
| WorkshopTool.WorkshopsTool.GetMatchingWorkshopsByDateRange | Workshop_App/workshop_tool.py:156-176 | success exactly when every phrase match's count is an integer, both bounds are real days, the phrase matches' starts parse and the kept counts are integers (else ValueError); the result is the phrase matches within the window, in order, with both counters over it |
| WorkshopTool.FirstWithId | Workshop_App/workshop_tool.py:190-196 | the position found holds the id and no earlier one does; none is found exactly when no workshop has the id |
| WorkshopTool.WorkshopsTool.GetMatchingWorkshopsById | Workshop_App/workshop_tool.py:179-199 | the first workshop with the id alone, counters 1 and its count; with no match the counters are 0 and the result is an AttributeError; a non-integer count is a ValueError |
| WorkshopTool.AppendRosterEmails | Workshop_App/workshop_tool.py:124-127 | one roster's e-mails are appended in roster order |
| WorkshopTool.WorkshopsTool.GetEmails | Workshop_App/workshop_tool.py:117-134 | the e-mail text of the last search's rosters, workshop after workshop and participant after participant |
| Records.EmailTextCases | Workshop_App/workshop_tool.py:129-134 | the text is never empty; it is the no-e-mails notice exactly when the join is empty, and otherwise the `";\n"` join, in which every e-mail occurs |
| Records.EmailsOfLength | Workshop_App/workshop_tool.py:122-127 | there is one e-mail per participant, summed over the rosters |
| Records.EmailsOfHas | Workshop_App/workshop_tool.py:122-127 | every participant's e-mail is collected |
| Extract.ParseListingRow | Workshop_App/workshop_tool.py:27-39 | a row yields a listing exactly when it has at least three lines and its third holds `" / "` (IndexError otherwise); the id has at most six characters and the url is the base followed by the id |
| Extract.ParseListingText | Workshop_App/workshop_tool.py:34-39 | a row shown as `"<id> - <name>"`, start, `"<signed> / <capacity>"` gives back the six-character id, the name, the start and both counts |
| Extract.EveryThirdCells | Workshop_App/workshop_tool.py:57-59 | exactly the cells at positions 0, 3, 6, ... are picked, in order |
| Extract.DatesTextStep | Workshop_App/workshop_tool.py:57-63 | one more cell changes the dates text exactly when its position is a multiple of three |
| Extract.DatesTextIsJoin | Workshop_App/workshop_tool.py:56-63 | with no empty text, the accumulated dates text is the `"_"` join, without a leading or trailing `_` |
| Extract.DatesTextLeadingEmpty | Workshop_App/workshop_tool.py:60-61 | an empty text while nothing is accumulated leaves no trace |
| Extract.DatesAndLocationOf | Workshop_App/workshop_tool.py:54-65 | defined exactly when the page has at least nine cells (IndexError otherwise); the location is the third cell after the first six |
| Extract.DatesOfCells | Workshop_App/workshop_tool.py:54-65 | with no empty date cell the dates are the cells 6, 9, 12, ... joined by `_`, one per three cells |
| WorkshopTool.WorkshopsTool.GetDatesAndLocation | Workshop_App/workshop_tool.py:51-65 | the loop over the cells yields exactly the page's location and dates |
| Extract.RosterEntry | Workshop_App/workshop_tool.py:76-86 | a roster row without a second line yields no participant; one or two lines after the first is an IndexError |
| Extract.Roster | Workshop_App/workshop_tool.py:76-88 | the roster is defined exactly when every row is, fails with an IndexError otherwise, and has at most one participant per row |
| Extract.RosterOfTexts | Workshop_App/workshop_tool.py:76-88 | rows built from participants read back as those participants, in row order |
| Extract.RosterEntryOfText | Workshop_App/workshop_tool.py:76-86 | a roster row of a lead line and a participant's name, e-mail and school lines reads back as that participant |
| WorkshopTool.WorkshopsTool.ConstructParticipantInfo | Workshop_App/workshop_tool.py:67-88 | the roster of the participant page at the participant address; a KeyError without that address's base |
| WorkshopTool.WorkshopOfRow | Workshop_App/workshop_tool.py:31-44 | a scraped workshop has the base url plus its id as url, the session page's location, and the participant page's roster; errors are IndexError or KeyError |
| WorkshopTool.WorkshopsTool.WorkshopFromRow | Workshop_App/workshop_tool.py:32-44 | the loop body builds exactly the row's workshop record |
| WorkshopTool.WorkshopsTool.SetupWorkshopInformation | Workshop_App/workshop_tool.py:20-47 | the header row is skipped and the records are the rows' workshops in order; the first failing row decides the error |
| WorkshopTool.WorkshopsTool.SetSearchPhrase | Workshop_App/workshop_tool.py:208-215 | the stored phrase is the escaped phrase; the counters and last results are untouched |
| WorkshopTool.WorkshopsTool.constructor | Workshop_App/workshop_tool.py:11-17 | no search done: both counters 0, empty phrase, empty results, the connector over the given connection information |
| Workshops.Workshops.constructor | Workshop_App/workshops.py:19-24 | no phrase, both counters 0, empty credentials |
| Workshops.Workshops.SetPhrase | Workshop_App/workshops.py:218-225 | the stored phrase is the same escaping as the newer tool's; counters and credentials unchanged |
| Workshops.StartDate | Workshop_App/workshops.py:209-216 | reading the start day fails only with a ValueError or an IndexError |
| Workshops.StartDateOfDateText | Workshop_App/workshops.py:214-216 | a start whose text before the first space is a `"%m/%d/%Y"` date gives that date as `(year, month, day)` |
| Workshops.StartDateOfParsed | Workshop_App/workshops.py:214-216 | wherever the newer tool parses a start, this reader finds the same day |
| Workshops.StartDateOfFormat | Workshop_App/workshops.py:214-216 | a start written as a date, a space and anything gives that date back |
| Workshops.Verdict | Workshop_App/workshops.py:134-150 | a row is kept only when the phrase finds its name; an error only arises for a found row with both bounds given |
| Workshops.NoDateKeepsMatches | Workshop_App/workshops.py:138-141 | without both bounds the search keeps exactly the name matches, or is a ValueError when one of their counts is not an `int` |
| Workshops.DateSearchMembers | Workshop_App/workshops.py:143-150 | with both bounds, a row is kept exactly when the phrase finds its name and its start day is within the bounds, both days included |
| Workshops.KeptMembers | Workshop_App/workshops.py:133-152 | without an error no verdict failed, and a row is kept exactly when a verdict on it says so |
| Workshops.KeptErrorPersists | Workshop_App/workshops.py:133-152 | the first error ends the whole search with that error |
| Workshops.RowsSignedUpDefined | Workshop_App/workshops.py:141 | the participant sum is defined exactly when every count reads as an `int` |
| Workshops.SearchAndCount | Workshop_App/workshops.py:131-152 | the loop's result is exactly the phrase search, and on success the sum of the kept counts |
| Workshops.Workshops.FindWorkshopsWithSearchPhrase | Workshop_App/workshops.py:126-152 | the result is the phrase search; on success the participant counter grows by the kept rows' sum |
| Workshops.WithIdMembers | Workshop_App/workshops.py:160-169 | a row is found exactly when it is stored with the id |
| Workshops.WithIdKeepsDuplicates | Workshop_App/workshops.py:160-169 | rows that all carry the id are all kept, in order: duplicates are not dropped |
| Workshops.WithIdUncounted | Workshop_App/workshops.py:162-167 | a row with the id and a non-integer count makes the sum undefined |
| Workshops.IdMatchesAndCount | Workshop_App/workshops.py:160-169 | the loop fails exactly when the id rows' sum is undefined; otherwise it builds exactly those rows and their sum |
| Workshops.Workshops.FindWithWorkshopId | Workshop_App/workshops.py:154-169 | every row with the id in order, the participant counter grown by their sum; a ValueError exactly when one of their counts is not an `int` |
| Workshops.Workshops.GetMatchingWorkshops | Workshop_App/workshops.py:104-124 | the participant counter restarts from 0; an id search is a TypeError; otherwise the phrase search, with the workshop counter set to its length |
| Workshops.Workshops.GetEmails | Workshop_App/workshops.py:190-207 | the e-mail text of the rows' participant lists, row by row |
| Workshops.Workshops.GetParticipantInfo | Workshop_App/workshops.py:80-102 | the roster of the page at `partInfoBaseURL` plus the id; a KeyError without that entry |
| Workshops.EntryOfRow | Workshop_App/workshops.py:65-74 | a loaded row's url is `urlBase` plus its id and its participants are the roster of its participant page; errors are IndexError or KeyError |
| Workshops.Workshops.EntryFromRow | Workshop_App/workshops.py:65-74 | the loop body builds exactly the row's record |
| Workshops.Workshops.ReadTableRows | Workshop_App/workshops.py:60-76 | the header is skipped and the records are the rows' in order; the first failing row stops the load |
| Workshops.Workshops.StoredUserInfo | Workshop_App/workshops.py:227-232 | the file holds the user name, one newline, then the password |
| Workshops.ReadUserInfo | Workshop_App/workshops.py:234-239 | a non-empty password is read only from contents with a newline |
| Workshops.UserInfoRoundTrip | Workshop_App/workshops.py:227-239 | credentials without a newline or surrounding whitespace are read back as written |
| Workshops.ReadUserInfoStripsIdeographicSpace | Workshop_App/workshops.py:234-239 | the strip removes Unicode whitespace too: `"alice"` followed by an ideographic space, a newline and `"pw"` reads as `("alice", "pw")` |
| Workshops.Workshops.GetUserInfo | Workshop_App/workshops.py:234-239 | the credentials become the two lines read from the contents; phrase and counters unchanged |
| SpreadSheetBaseTool.LocationKeyOfPlace | Workshop_App/spread_sheet_base_tool.py:35 | a location starting with a place and `" - "` is looked up under the place |
| SpreadSheetBaseTool.LocationKeyWhole | Workshop_App/spread_sheet_base_tool.py:35 | a location without `" - "` is looked up whole |
| SpreadSheetBaseTool.BuildRow | Workshop_App/spread_sheet_base_tool.py:32-54 | a row exists exactly when the location key is known, the count is an `int` and the description, credits and fees keys are present; otherwise, in cell order, a KeyError for the location key, a ValueError for the count, a KeyError for a missing key; a row has 14 cells; `spread_sheet_base_creator.py:9-31` is the same code |
| SpreadSheetBaseTool.ScrapedWorkshopHasNoRow | Workshop_App/spread_sheet_base_tool.py:47-51 | a workshop built by `setup_workshop_information` has no description, credits or fees key, so it never gets a spreadsheet row |
| SpreadSheetBaseTool.BuildRowRoundTrip | Workshop_App/spread_sheet_base_tool.py:37-52 | reading the row back cell by cell gives the workshop, with the count as `int` prints it; cells 0 and 6 are the location entry's `abbr` and `pd_doc_text` |
| SpreadSheetBaseTool.BuildRowDatesCell | Workshop_App/spread_sheet_base_tool.py:49 | the dates cell has one piece more than the dates have underscores |
| Dates.ParseFormatDate | Workshop_App/spread_sheet_base_tool.py:61 | reading back the `"%m/%d/%Y"` text of a valid date gives the date |
| Dates.MonthDayShape | Workshop_App/spread_sheet_base_tool.py:65 | `"%b %d"` is a three-letter month, a space and the two digits of the day |
| SpreadSheetBaseTool.FormatOneDate | Workshop_App/spread_sheet_base_tool.py:68-69 | one date gives its `"Mon DD"` alone |
| SpreadSheetBaseTool.FormatBadDate | Workshop_App/spread_sheet_base_tool.py:61 | any piece that is not a date makes the whole text a ValueError |
| SpreadSheetBaseTool.DayTextShape | Workshop_App/spread_sheet_base_tool.py:65 | each day text is a three-letter month, a space and a two-digit day, without a comma |
| SpreadSheetBaseTool.FormatDatesParts | Workshop_App/spread_sheet_base_tool.py:61-69 | the text splits on `", "` back into the dates' day texts in input order and holds one comma fewer than there are dates |
| SpreadSheetBaseTool.ParseAllDates | Workshop_App/spread_sheet_base_tool.py:61 | none exactly when some piece is not a date; otherwise every piece's date, in order |
| SpreadSheetBaseTool.JoinMonthDays | Workshop_App/spread_sheet_base_tool.py:62-67 | the loop's text is the `", "` join of the day texts |
| SpreadSheetBaseTool.CommaJoin | Workshop_App/spread_sheet_base_tool.py:62-67 | comma-free day texts joined by `", "` split back into themselves, with one comma fewer than texts |
| SpreadSheetBaseTool.FormatDates | Workshop_App/spread_sheet_base_tool.py:57-71 | the method's text is the specified dates text, whose properties are the lemmas above; `spread_sheet_base_creator.py:34-48` is the same code |
| GoogleSheetsTool.ListPosition | Workshop_App/google_sheets_tool.py:26 | a list index names a position exactly when it is within the list from either end |
| GoogleSheetsTool.ListPositionBothEnds | Workshop_App/google_sheets_tool.py:26 | every position is named by exactly two indices, one from each end |
| GoogleSheetsTool.GoogleSheetsTool.constructor | Workshop_App/google_sheets_tool.py:4-5 | the sheets list starts as the single entry 0 |
| GoogleSheetsTool.GoogleSheetsTool.AddRow | Workshop_App/google_sheets_tool.py:8-9 | nothing changes |
| GoogleSheetsTool.GoogleSheetsTool.AddValuesRequest | Workshop_App/google_sheets_tool.py:11-14 | the dictionary reads back as a request to fill exactly that range with exactly those rows |
| GoogleSheetsTool.GoogleSheetsTool.ChangeGoogleSheetNameRequest | Workshop_App/google_sheets_tool.py:17-20 | the dictionary reads back as a request to retitle the spreadsheet to the name, changing the title field only |
| GoogleSheetsTool.GoogleSheetsTool.ChangeSheetNameRequest | Workshop_App/google_sheets_tool.py:23-27 | an IndexError exactly when the index is outside the list from both ends; otherwise the dictionary reads back as a retitling of the sheet whose entry is at the position the index names, counted from the end when negative |
| GoogleSheetsTool.GoogleSheetsTool.AddSheetRequest | Workshop_App/google_sheets_tool.py:30-36 | the dictionary reads back as adding a sheet with the name whose id is the earlier number of sheets; the name is appended and earlier entries kept; renaming the new sheet, by its id or as index -1, names it by its name, not by its id |
| Connection.ConnectionTool.constructor | Workshop_App/connection_tool.py:12-14 | the tool holds the loaded connection information |
| Connection.ConnectionTool.GetConnectionInfoFor | Workshop_App/connection_tool.py:51-54 | the stored value exactly when the key is present, a KeyError otherwise |
| Connection.ConnectionTool.ParticipantPageUrl | Workshop_App/connection_tool.py:36-41 | the participant base url followed by the id; a KeyError without the base |
| Connection.ConnectionTool.SetupLoginInformation | Workshop_App/connection_tool.py:85-100 | success exactly when both credentials and both token inputs with values exist; then exactly five keys, the credentials copied, `"Submit"` and the two token values; in the order the fields are filled, a missing credential is a KeyError, a missing input an AttributeError and an input without a `value` attribute a KeyError |
| Connection.StoreUserInfo | Workshop_App/connection_tool.py:71-82 | `user_name` and `password` take the new values, every other entry is kept and no key is lost |
| Layout.SelectedSearch | Workshop_App/helper_functions.py:26-36 | an id search exactly when the id field is non-empty, a date search exactly when it is empty and the date box is checked, the phrase search otherwise |
| HelperFunctions.UpdateSearchedWorkshops | Workshop_App/helper_functions.py:23-38 | the selected search runs; an id that matches nothing gives `[]`; a result is the tool's last search with counters that agree with it; the date search keeps its date-filtered phrase matches and the phrase search its phrase matches |
| Layout.DetailsCheckedShowsFields | Workshop_App/helper_functions.py:41-50 | the detail block is asked for exactly when a workshop line would show some field |
| Layout.WorkshopFieldsSelect | Workshop_App/helper_functions.py:131-142 | a workshop line shows exactly the checked fields in the order id, start, `signed/capacity`, name, url |
| Layout.ParticipantFieldsSelect | Workshop_App/helper_functions.py:156-162 | a contact line shows exactly the checked fields in the order name, e-mail, school |
| Layout.SelectCount | Workshop_App/helper_functions.py:131-142 | one field is shown per checked box, all when all are checked and none when none is |
| Layout.SelectMembers | Workshop_App/helper_functions.py:131-142 | every field shown is one whose box is checked |
| Layout.SelectEmpty | Workshop_App/helper_functions.py:131-142 | a line shows no field exactly when no box is checked |
| Layout.WorkshopLine | Workshop_App/helper_functions.py:132-142 | appending box by box gives the checked workshop fields |
| Layout.ParticipantLine | Workshop_App/helper_functions.py:156-162 | appending box by box gives the checked contact fields |
| Layout.AppendContacts | Workshop_App/helper_functions.py:155-165 | the loop appends exactly the contact lines of the roster, in order |
| Layout.AppendDetails | Workshop_App/helper_functions.py:128-169 | the loop appends exactly the detail block: per workshop its line, a newline, the contact block when a contact box is checked, and a closing newline; `display_text.py:62-108`, `workshop_program.py:81-128` and `workshopProgramMain.py:71-114` lay out positional rows with the same code, read through `ViewsOfRows` |
| Layout.DetailPiecesAppend | Workshop_App/helper_functions.py:131-167 | the detail block of two runs of workshops is the first's followed by the second's |
| Layout.DisplayTextShape | Workshop_App/helper_functions.py:72-81 | the text starts with the two count lines and ends with the e-mail section, with the detail block between them exactly when asked for |
| HelperFunctions.GetWorkshopDisplayText | Workshop_App/helper_functions.py:71-81 | the text of the counters, the tool's last search's detail block when asked for, and its e-mails |
| HelperFunctions.GenerateWorkshopInfo | Workshop_App/helper_functions.py:7-20 | the escaped phrase is stored; the text shows the last search with counters that agree with it; an unmatched id shows zeros and the no-e-mails notice; a phrase search shows exactly its matches |
| HelperFunctions.UpdateDatabaseText | Workshop_App/helper_functions.py:53-68 | welcome after an update, offline on Python's own ConnectionError, server error on a TypeError, the missing-file text for any missing file; the `requests` ConnectionError and any other exception escape (no message) |
| HelperFunctions.UpdateDatabaseTextTellsApart | Workshop_App/helper_functions.py:58-66 | the four messages differ, so a message shown names the kind of outcome that led to it |
| DisplayText.GetBaseDisplayText | Workshop_App/display_text.py:5-15 | the pieces are the count lines, the rows' detail block when asked for, and the e-mail section; joined, they start with the counts and end with the e-mails |
| Layout.RowViewsMatchWorkshops | Workshop_App/display_text.py:71-102 | the positional fields a row shows (`[1]`, `[3]`, `[4]`/`[5]`, `[2]`, `[6]`, participants `[7]`) are those of a workshop dictionary exactly when the row stores that dictionary's fields, so the older layout of rows is the newer layout of the dictionaries |
| WorkshopProgram.GenerateWorkshopText | Workshop_App/workshop_program.py:57-66 | the count lines, the rows' detail block exactly when a workshop box is checked, and the e-mail section |
| WorkshopProgram.MissingFileName | Workshop_App/workshop_program.py:146 | reading the quoted file name fails with an IndexError exactly when the error text has no quote |
| WorkshopProgram.MissingFileNameOfQuoted | Workshop_App/workshop_program.py:146 | an error text ending in a quoted name gives that name |
| WorkshopProgram.UpdateDatabaseText | Workshop_App/workshop_program.py:131-151 | welcome after an update, offline on the `requests` ConnectionError, server error on a TypeError; after a missing file the missing-file text only for `connection_info.json`, nothing for another name, and a text without a quote raises; Python's own ConnectionError escapes |
| WorkshopProgram.UpdateDatabaseTextAgrees | Workshop_App/workshop_program.py:136-149 | the same message as the helper module after an update, a bad reply or an unhandled error; on each ConnectionError exactly one of the two shows a message; after a missing file they agree exactly when the file is `connection_info.json` |
| WorkshopProgram.UpdateDatabaseTextTellsApart | Workshop_App/workshop_program.py:136-149 | the messages differ, so a message shown names the kind of outcome that led to it |
| WorkshopProgramMain.DateBound | Workshop_App/workshopProgramMain.py:48-52 | the calendar's date is passed exactly when the date box is checked, and it is passed unchanged |
| WorkshopProgramMain.GenerateWorkshopInfo | Workshop_App/workshopProgramMain.py:40-63 | the escaped phrase is stored; an id gives a TypeError; otherwise the text of the phrase search's rows (within the dates when checked) with their count, sign-up sum and e-mails, or the search's error |
| WorkshopProgramMain.UpdateDatabaseText | Workshop_App/workshopProgramMain.py:116-131 | its own welcome after an update, offline on the `requests` ConnectionError, server error on a TypeError, a request for credentials after any missing file; Python's own ConnectionError and any other exception escape |
| WorkshopProgramMain.UpdateDatabaseTextComparedWithNewer | Workshop_App/workshopProgramMain.py:119-129 | the same message as the newer program on either ConnectionError, a bad reply and an unhandled error; a different message after an update and after a missing file |
| WorkshopProgramMain.UpdateDatabaseTextTellsApart | Workshop_App/workshopProgramMain.py:121-129 | the four messages differ, so a message shown names the kind of outcome that led to it |
| GuiWindow.IncreasedFont | Workshop_App/gui_window.py:30-37 | the size is unchanged exactly at 52 or above, otherwise 4 larger; a valid size stays valid |
| GuiWindow.DecreasedFont | Workshop_App/gui_window.py:40-47 | the size is unchanged exactly at 8 or below, otherwise 4 smaller; a valid size stays valid, and a step up undoes it |
| GuiWindow.DecreaseUndoesIncrease | Workshop_App/gui_window.py:30-47 | below the largest size a step down undoes a step up |
| GuiWindow.FontAfterValid | Workshop_App/gui_window.py:24-47 | whatever buttons are pressed, the size stays a multiple of 4 between 8 and 52 |
| GuiWindow.FontAfterIncreases | Workshop_App/gui_window.py:30-37 | `k` increases within bounds add `4k` |
| GuiWindow.FontSizesReachable | Workshop_App/gui_window.py:24-47 | every valid size is reached from 12 by some presses |
| GuiWindow.Window.constructor | Workshop_App/gui_window.py:22-27 | the font size starts at 12 and the output is empty |
| GuiWindow.Window.IncreaseFont | Workshop_App/gui_window.py:30-37 | the size becomes the increased size, the field's point size follows a change, its text is kept, validity is preserved |
| GuiWindow.Window.DecreaseFont | Workshop_App/gui_window.py:40-47 | the size becomes the decreased size, the field's point size follows a change, its text is kept, validity is preserved |
| GuiWindow.Window.CredsPopupBox | Workshop_App/gui_window.py:50-66 | the credentials are stored exactly when the dialog is accepted with both fields filled; the success box is shown exactly when they were |
| GuiWindow.Window.GoogleFilenamePopupBox | Workshop_App/gui_window.py:69-86 | the file name and folder id exactly when accepted with both filled, `None` otherwise, with the matching box; an accepted address without `folders/` is an IndexError before any box |
| GuiWindow.StripFolderId | Workshop_App/gui_window.py:89-92 | an IndexError exactly when the address has no `folders/` |
| GuiWindow.StripFolderIdOfAddress | Workshop_App/gui_window.py:89-92 | the text after the first `folders/` to the end is the id |
| GuiWindow.StripFolderIdStopsAtNext | Workshop_App/gui_window.py:89-92 | a second `folders/` ends the id |
| GuiWindow.CredsResultMessage | Workshop_App/gui_window.py:95-108 | a "Results" box whose icon is the information icon and whose text is the "updated" text, each exactly on success |
| GuiWindow.ExportResultMessage | Workshop_App/gui_window.py:111-124 | a "Results" box whose icon is the information icon and whose text is the "being created" text, each exactly on success |
| GuiWindow.ResultMessagesDiffer | Workshop_App/gui_window.py:95-124 | success and failure are told apart by their texts |
| GuiWindowLegacy.LegacyWindow.constructor | Workshop_App/guiWindow.py:19-24 | the font size starts at 12 |
| GuiWindowLegacy.LegacyWindow.IncreaseFont | Workshop_App/guiWindow.py:26-33 | a step of 4 only below 52, the text kept, validity preserved |
| GuiWindowLegacy.LegacyWindow.DecreaseFont | Workshop_App/guiWindow.py:36-43 | a step of 4 only above 8, the text kept, validity preserved |
| GuiWindowLegacy.LegacyWindow.CredsPopupBox | Workshop_App/guiWindow.py:46-79 | accepted with both filled: the credentials are set on `ws` and written, and read back from the file as set when plain; otherwise `ws` is untouched; the box reports which |

## Left out

- HTTP, HTML selection, SQLite, Qt and file I/O are not modelled. Each page is the sequence of its elements' texts, and the database is the sequence of stored records. Dialog input is given as values, and files are their contents.
- `database.py` is not part of this model. `makeParticipantList` reads participant rows from it, so a stored row already carries its participant list (`Row.participants`).
- `connectAndUpdateDatabase`'s sign-in requests (`workshops.py:39-52`) and `intial_connection`, `get_instructor_page` and `close_session` are session I/O. The instructor table's rows are inputs, and the login form inputs of `setup_login_information` are values.
- `get_dates_and_location` calls `connector.get_session_page`, which `connection_tool.py` does not define. The session page is a function from address to cell texts.
- `display_text.py` and `workshop_program.py` import `WorkshopsTool` from `workshops.py`, which does not define it, and pass rows to a one-argument `get_emails`. Their counters, rows and e-mail text are therefore inputs.
- `setWorkingDirectory`/`set_working_directory` (`chdir`), `getURLInfo`, `setup_connection_info`, `construct_workshop_database` and the trivial getters are not modelled. They are file-system state, file reads, database writes, or a field read.
- `re.search` is modelled only for patterns that stand for one fixed text. Search members require it of the lower-cased phrase whenever the phrase search runs. The escaping leaves `?` alone, so it makes the character before it optional, or is an `re.error` at the start. A `[` becomes an escaped backslash followed by an unescaped `[`. That opens a character set: `re.search` raises `re.error` unless a later `]` closes it. `Pattern.OpenBracketNotLiteral` and `Pattern.CloseBracketFindsBackslash` show what the escaping makes of brackets.
- `strptime`/`strftime` are modelled for the three formats used, with C-locale month names. `Dates.ParseDate` and `Dates.ParseDateTime` accept exactly one space where the format has one. They accept only the two-digit or one-digit ASCII forms of `%d`, and ASCII digits only in `%m`, `%d`, `%Y`, `%I` and `%M`. Python turns a format space into any run of whitespace, and its `%d` also takes a space before a single digit (`"01/ 5/2024"`), and its `\d` matches any Unicode decimal digit (such as `"٠١/05/2024"`). Those texts are a ValueError here.
- `str.lower()` and `int()` are modelled on ASCII text: `Strings.Lower` folds `A`-`Z` only. `Strings.ParseInt` takes surrounding whitespace (`Strings.IsSpace`, the whole set Python strips), then an optional sign and ASCII digits. Python also folds other letters (`"ÉCOLE"` finds `"École"`). Its `int()` also takes `_` between digits and other Unicode decimal digits.
- Pattern.SearchEscaped: a phrase and a name that differ only in non-ASCII letter case are not found, because lowering is ASCII-only.
- WorkshopTool.PhraseMatchesContaining: "contains the phrase ignoring case" uses ASCII-only lowering.
- WorkshopTool.WorkshopsTool.GetMatchingWorkshops: names matched only through Unicode case folding are missing, and counts that only Python's wider `int()` reads are a ValueError here.
- Workshops.Verdict: the phrase test uses ASCII-only lowering.
- Workshops.Workshops.FindWorkshopsWithSearchPhrase: names matched only through Unicode case folding are missing.
- WorkshopTool.DateWindowDefined: a start with a run of whitespace or a space-padded day is a ValueError here, but Python parses it.
- WorkshopTool.KeepAndCount: inherits the single-space, digits-only date parsing.
- WorkshopTool.WorkshopsTool.KeepDateWindow: inherits the single-space, digits-only date parsing.
- SpreadSheetBaseTool.FormatBadDate: a space-padded day such as `"01/ 5/2024"` counts as "not a date" here, but Python formats it.
- SpreadSheetBaseTool.ParseAllDates: inherits the digits-only day parsing.
- SpreadSheetBaseTool.FormatDates: a space-padded day is a ValueError here, but Python formats it.
- `QMessageBox` and `QDialog` display, `exec_`, `setReadOnly` and the text field's styling are left out. A shown box is a `MessageBox` value.
- The welcome, offline, server-error and missing-file texts are constants. No property of their line structure is stated.
- `excel_tool.py`, `google_sheets_creator.py`, `loginDialog.py`, `splash_screen.py` and `pdNumbers.py` are not part of this model. The abstract export and formatting methods of `spread_sheet_base_tool.py` (13-30) and `co_op_abbreviations` are not modelled either.
- `spread_sheet_base_creator.py` repeats the base tool's `build_row_for_workshop` and `format_dates` line for line. `SpreadSheetBaseTool.BuildRow` and `SpreadSheetBaseTool.FormatDates` model both.
- The `workshop_description`, `workshop_credits` and `workshop_fees` keys are `Option` fields of a workshop, `None` where the dictionary lacks the key. No operation modelled here sets them. A workshop scraped by `setup_workshop_information` lacks all three, so exporting it stops at a KeyError (`SpreadSheetBaseTool.ScrapedWorkshopHasNoRow`).
- Python lists are values: aliasing between `searched_workshops` and the list a search returns is not modelled.
- WorkshopTool.WorkshopsTool.GetMatchingWorkshops: on a ValueError, the partly filled result list and partial participant count the source leaves behind are not stated.
- WorkshopTool.WorkshopsTool.GetMatchingWorkshopsByDateRange: on a ValueError, the partial counters and result list are not stated. Starts that Python parses through whitespace runs or a space-padded day are a ValueError here.
- Workshops.Workshops.FindWorkshopsWithSearchPhrase: on an error, the partial participant count is not stated.
- Workshops.Workshops.FindWithWorkshopId: on a ValueError, the partial participant count is not stated.
- Workshops.ReadUserInfo: the file is split at `\n` only. A `\r\n` file reads as in Python, because the strip removes the `\r`. A file whose lines end in a lone `\r` is one line here, but Python's universal-newline `readline()` splits it.
