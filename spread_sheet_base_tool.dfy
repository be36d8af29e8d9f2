/**
 * The spreadsheet base tool's two shared steps: the fourteen cells of one workshop's row,
 * and the `"Mon DD"` list of a workshop's meeting days.
 */
module SpreadSheetBaseTool {
  import opened Wrappers
  import opened Strings
  import opened Dates
  import opened Records
  import Connection
  import WorkshopTool

  /** The entry of the co-op session locations a row reads: its `abbr` and `pd_doc_text`. */
  datatype LocationEntry = LocationEntry(abbr: string, pdDocText: string)

  /** One cell of a spreadsheet row. */
  datatype Cell =
    | Text(text: string)
    | Number(value: int)
    | People(participants: seq<Participant>)
    | Texts(texts: seq<string>)

  // ------------------------------------------------------------------ rows

  /** The location's text before the first `" - "`: the key into the session locations. */
  function LocationKey(location: string): string
  {
    Split(location, " - ")[0]
  }

  /** A location that starts with a place and `" - "` is looked up under the place. */
  lemma LocationKeyOfPlace(place: string, rest: string)
    requires forall j: nat :: j < |place| ==> !OccursAt(place + " - ", " - ", j)
    ensures LocationKey(place + " - " + rest) == place
  {
    SplitOnFirst(place, " - ", rest);
  }

  /** A location without `" - "` is looked up whole. */
  lemma LocationKeyWhole(location: string)
    requires !Contains(location, " - ")
    ensures LocationKey(location) == location
  {
    SplitNoOccurrence(location, " - ");
  }

  /**
   * `build_row_for_workshop`: abbreviation, id, name, start, signed-up count as an `int`,
   * capacity, pd-doc text, url, participants, description, location, the dates split on
   * `_`, credits and fees. The cells are read in that order, so a location key the session
   * locations lack is a KeyError first (cell 0), then a signed-up count that is not an `int`
   * a ValueError (cell 4), then a missing description, credits or fees key a KeyError
   * (cells 9, 12 and 13).
   */
  function BuildRow(locations: map<string, LocationEntry>, w: Workshop): (r: Result<seq<Cell>>)
    ensures r.Ok? <==> (LocationKey(w.location) in locations && IsInt(w.signedUp)
                        && w.description.Some? && w.credits.Some? && w.fees.Some?)
    ensures r.Err? ==> r.error == (if LocationKey(w.location) in locations && IsInt(w.signedUp) then KeyError
                                   else if LocationKey(w.location) in locations then ValueError
                                   else KeyError)
    ensures r.Ok? ==> |r.value| == 14
  {
    var location := LocationKey(w.location);
    if location !in locations then Err(KeyError)
    else
      match ParseInt(w.signedUp)
      case None => Err(ValueError)
      case Some(n) =>
        if w.description.None? || w.credits.None? || w.fees.None? then Err(KeyError)
        else
          Ok([Text(locations[location].abbr), Text(w.id), Text(w.name), Text(w.startDateAndTime), Number(n),
              Text(w.capacity), Text(locations[location].pdDocText), Text(w.url), People(w.participants),
              Text(w.description.value), Text(w.location), Texts(Split(w.dates, "_")), Text(w.credits.value),
              Text(w.fees.value)])
  }

  /**
   * A workshop just scraped from the instructor table carries no description, credits or
   * fees keys, so it has no row: its export stops at a KeyError (or an earlier error).
   */
  lemma ScrapedWorkshopHasNoRow(locations: map<string, LocationEntry>, connector: Connection.ConnectionTool,
                                text: string, sessionPage: string -> seq<string>,
                                participantPage: string -> seq<string>)
    requires WorkshopTool.WorkshopOfRow(connector, text, sessionPage, participantPage).Ok?
    ensures BuildRow(locations, WorkshopTool.WorkshopOfRow(connector, text, sessionPage, participantPage).value).Err?
  {
  }

  /** The workshop a row shows, read back cell by cell; `None` for anything not shaped like a row. */
  function RowWorkshop(row: seq<Cell>): Option<Workshop>
  {
    if |row| == 14 && row[1].Text? && row[2].Text? && row[3].Text? && row[4].Number? && row[5].Text?
       && row[7].Text? && row[8].People? && row[9].Text? && row[10].Text? && row[11].Texts?
       && row[12].Text? && row[13].Text?
    then
      Some(Workshop(row[1].text, row[2].text, row[3].text, IntToString(row[4].value), row[5].text, row[7].text,
                    row[10].text, row[8].participants, Join(row[11].texts, "_"), Some(row[9].text),
                    Some(row[12].text), Some(row[13].text)))
    else None
  }

  /**
   * A row keeps every field of its workshop: reading it back gives the workshop, with the
   * signed-up count in the form `int` prints it. The location's entry supplies cells 0 and 6.
   */
  lemma BuildRowRoundTrip(locations: map<string, LocationEntry>, w: Workshop)
    requires BuildRow(locations, w).Ok?
    ensures RowWorkshop(BuildRow(locations, w).value)
      == Some(w.(signedUp := IntToString(ParseInt(w.signedUp).value)))
    ensures BuildRow(locations, w).value[0] == Text(locations[LocationKey(w.location)].abbr)
    ensures BuildRow(locations, w).value[6] == Text(locations[LocationKey(w.location)].pdDocText)
  {
    JoinSplit(w.dates, "_");
  }

  /** The dates cell holds one piece more than the dates have underscores. */
  lemma BuildRowDatesCell(locations: map<string, LocationEntry>, w: Workshop)
    requires BuildRow(locations, w).Ok?
    ensures |BuildRow(locations, w).value[11].texts| == Count(w.dates, '_') + 1
  {
    SplitCharLength(w.dates, '_');
  }

  // ----------------------------------------------------------------- dates

  /** Every piece read as a `"%m/%d/%Y"` date, in order. */
  function ParsedDates(pieces: seq<string>): (r: seq<Option<Date>>)
    ensures |r| == |pieces|
  {
    if |pieces| == 0 then []
    else ParsedDates(pieces[..|pieces| - 1]) + [ParseDate(pieces[|pieces| - 1])]
  }

  lemma {:induction false} ParsedDatesAt(pieces: seq<string>, i: nat)
    requires i < |pieces|
    ensures ParsedDates(pieces)[i] == ParseDate(pieces[i])
  {
    if i < |pieces| - 1 {
      ParsedDatesAt(pieces[..|pieces| - 1], i);
    }
  }

  predicate AllDates(dates: seq<Option<Date>>)
  {
    forall i :: 0 <= i < |dates| ==> dates[i].Some?
  }

  /** The `"%b %d"` text of a date read from the text. */
  function DayText(date: Option<Date>): string
  {
    if date.Some? && ValidDate(date.value) then MonthDay(date.value) else ""
  }

  function DayTexts(dates: seq<Option<Date>>): (r: seq<string>)
    ensures |r| == |dates| && forall i :: 0 <= i < |dates| ==> r[i] == DayText(dates[i])
  {
    seq(|dates|, i requires 0 <= i < |dates| => DayText(dates[i]))
  }

  /**
   * `format_dates`: the workshop's dates split on `_`, every piece read as a date (a
   * ValueError for one that is not), then their `"Mon DD"` texts joined by `", "`.
   */
  function FormatDatesOf(dates: string): Result<string>
  {
    var parsed := ParsedDates(Split(dates, "_"));
    if !AllDates(parsed) then Err(ValueError) else Ok(Join(DayTexts(parsed), ", "))
  }

  /** One date gives its `"Mon DD"` alone. */
  lemma FormatOneDate(dates: string, d: Date)
    requires '_' !in dates && ParseDate(dates) == Some(d)
    ensures FormatDatesOf(dates) == Ok(MonthDay(d))
  {
    CharNotContained(dates, '_');
    SplitNoOccurrence(dates, "_");
    ParsedDatesAt([dates], 0);
  }

  /** Any piece that is not a date makes the whole text a ValueError. */
  lemma FormatBadDate(dates: string, i: nat)
    requires i < |Split(dates, "_")| && ParseDate(Split(dates, "_")[i]).None?
    ensures FormatDatesOf(dates) == Err(ValueError)
  {
    ParsedDatesAt(Split(dates, "_"), i);
  }

  /** The `"Mon DD"` text of a date has no comma. */
  lemma MonthDayHasNoComma(d: Date)
    requires ValidDate(d)
    ensures ',' !in MonthDay(d)
  {
    MonthDayShape(d);
    var s := MonthDay(d);
    var month := d.month;
    assert s[..3] == MonthAbbreviation(month);
    assert ',' !in MonthAbbreviation(month);
    forall i | 0 <= i < |s|
      ensures s[i] != ','
    {
      if i >= 4 {
        assert s[4..][i - 4] == s[i];
      } else if i < 3 {
        assert s[..3][i] == s[i];
      }
    }
  }

  /** The text of piece `i` is a three-letter month, a space and a two-digit day, without a comma. */
  lemma DayTextShape(pieces: seq<string>, i: nat)
    requires i < |pieces| && ParsedDates(pieces)[i].Some?
    ensures var t := DayText(ParsedDates(pieces)[i]);
      |t| == 6 && t[3] == ' ' && ',' !in t
  {
    ParsedDatesAt(pieces, i);
    var d := ParseDate(pieces[i]).value;
    MonthDayShape(d);
    MonthDayHasNoComma(d);
  }

  /** Texts without a comma, joined by `", "`, split back into themselves around exactly their separators. */
  lemma CommaJoin(days: seq<string>)
    requires |days| > 0 && forall i :: 0 <= i < |days| ==> ',' !in days[i]
    ensures Split(Join(days, ", "), ", ") == days
    ensures Count(Join(days, ", "), ',') == |days| - 1
  {
    SplitJoin(days, ", ");
    var sep := ", ";
    assert sep[1..] == " " && sep[1..][1..] == "";
    assert Count(sep, ',') == 1;
    CountJoin(days, sep, ',');
  }

  /**
   * The text of the dates is their `"Mon DD"` texts in input order: split on `", "` it
   * gives them back, and it holds one comma fewer than there are dates.
   */
  lemma FormatDatesParts(dates: string)
    requires FormatDatesOf(dates).Ok?
    ensures var pieces := Split(dates, "_");
      Split(FormatDatesOf(dates).value, ", ") == DayTexts(ParsedDates(pieces))
      && Count(FormatDatesOf(dates).value, ',') == |pieces| - 1
  {
    var pieces := Split(dates, "_");
    var days := DayTexts(ParsedDates(pieces));
    forall i | 0 <= i < |pieces|
      ensures ',' !in days[i]
    {
      DayTextShape(pieces, i);
    }
    CommaJoin(days);
  }

  /** The list comprehension of `format_dates`: every piece read as a date, or `None` at the first that is not one. */
  method ParseAllDates(pieces: seq<string>) returns (parsed: Option<seq<Date>>)
    ensures parsed.None? <==> !AllDates(ParsedDates(pieces))
    ensures parsed.Some? ==> (|parsed.value| == |pieces|
      && forall k :: 0 <= k < |pieces| ==> ParsedDates(pieces)[k] == Some(parsed.value[k]) && ValidDate(parsed.value[k]))
  {
    ghost var all := ParsedDates(pieces);
    var dates: seq<Date> := [];
    for i := 0 to |pieces|
      invariant |dates| == i
      invariant forall k :: 0 <= k < i ==> all[k] == Some(dates[k]) && ValidDate(dates[k])
    {
      var d := ParseDate(pieces[i]);
      ParsedDatesAt(pieces, i);
      if d.None? {
        return None;
      }
      dates := dates + [d.value];
    }
    parsed := Some(dates);
  }

  /** The loop of `format_dates` over several dates: their `"Mon DD"` texts joined by `", "`. */
  method JoinMonthDays(dates: seq<Date>, ghost days: seq<string>) returns (datesText: string)
    requires |days| == |dates| > 0
    requires forall k :: 0 <= k < |dates| ==> ValidDate(dates[k]) && days[k] == MonthDay(dates[k])
    ensures datesText == Join(days, ", ")
  {
    MonthDayShape(dates[0]);
    datesText := "";
    for i := 0 to |dates|
      invariant datesText == Join(days[..i], ", ")
    {
      JoinNext(days, i, ", ");
      if datesText == "" {
        datesText := MonthDay(dates[i]);
      } else {
        datesText := datesText + ", " + MonthDay(dates[i]);
      }
    }
    PrefixWhole(days);
  }

  /** The `format_dates` loop: read every piece, then join the `"Mon DD"` texts of several. */
  method FormatDates(w: Workshop) returns (r: Result<string>)
    ensures r == FormatDatesOf(w.dates)
  {
    var pieces := Split(w.dates, "_");
    var parsed := ParseAllDates(pieces);
    if parsed.None? {
      return Err(ValueError);
    }
    var dates := parsed.value;
    ghost var days := DayTexts(ParsedDates(pieces));
    var datesText := "";
    if |dates| > 1 {
      datesText := JoinMonthDays(dates, days);
    } else {
      datesText := MonthDay(dates[0]);
    }
    r := Ok(datesText);
  }
}
