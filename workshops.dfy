/**
 * The older `Workshops` class: it searches the stored table rows by phrase (and, when both
 * bounds are given, by start day), or by workshop id, keeps the counters of the last search,
 * lists the e-mails of a search's participants and stores the user's credentials.
 */
module Workshops {
  import opened Wrappers
  import opened Strings
  import opened Dates
  import opened Pattern
  import opened Records
  import opened Extract

  // --------------------------------------------------------------- start days

  /** Whether every text reads as an `int`. */
  predicate AllInts(parts: seq<string>)
  {
    forall i :: 0 <= i < |parts| ==> IsInt(parts[i])
  }

  /**
   * `getStartDate`: the text before the first space of the start, split on `/`, every part
   * read as an `int` (a ValueError otherwise), then `(year, month, day)` from parts 2, 0
   * and 1 (an IndexError when there are fewer than three).
   */
  function StartDate(row: Row): (r: Result<Date>)
    ensures r.Err? ==> r.error == ValueError || r.error == IndexError
  {
    var parts := Split(Split(row.start, " ")[0], "/");
    if !AllInts(parts) then Err(ValueError)
    else if |parts| < 3 then Err(IndexError)
    else Ok(Date(ParseInt(parts[2]).value, ParseInt(parts[0]).value, ParseInt(parts[1]).value))
  }

  /** A field the strict date-and-time reader accepts reads as the same `int`. */
  lemma ParseFieldInt(s: string, minLen: nat, maxLen: nat)
    requires minLen >= 1 && ParseField(s, minLen, maxLen).Some?
    ensures ParseInt(s) == Some(ParseField(s, minLen, maxLen).value as int)
  {
    ParseIntOfDigits(s);
  }

  /** The day of a `"%m/%d/%Y"` text is read back by the start-day reader. */
  lemma StartDateOfDateText(row: Row, day: string, d: Date)
    requires Split(row.start, " ")[0] == day && ParseDate(day) == Some(d)
    ensures StartDate(row) == Ok(d)
  {
    var parts := Split(day, "/");
    ParseFieldInt(parts[0], 1, 2);
    ParseFieldInt(parts[1], 1, 2);
    ParseFieldInt(parts[2], 4, 4);
  }

  /**
   * Wherever the newer tool reads a start as a date and time, this reader finds the same
   * day: the two tools agree on the start day of every well-formed row.
   */
  lemma StartDateOfParsed(row: Row, t: DateTime)
    requires ParseDateTime(row.start) == Some(t)
    ensures StartDate(row) == Ok(t.date)
  {
    StartDateOfDateText(row, Split(row.start, " ")[0], t.date);
  }

  /** A start written as `"%m/%d/%Y"`, then a space and anything, is read back as its day. */
  lemma StartDateOfFormat(row: Row, d: Date, rest: string)
    requires ValidDate(d) && row.start == FormatDate(d) + " " + rest
    ensures StartDate(row) == Ok(d)
  {
    FormatDateHasNoSpace(d);
    NoOccurrenceBefore(FormatDate(d), " ");
    SplitOnFirst(FormatDate(d), " ", rest);
    ParseFormatDate(d);
    StartDateOfDateText(row, FormatDate(d), d);
  }

  // ------------------------------------------------------------ phrase search

  /** Whether a day lies between the bounds, both days included. */
  predicate InDays(d: Date, first: Date, last: Date)
  {
    DateLe(first, d) && DateLe(d, last)
  }

  /**
   * What the phrase search does with one row: pass over a row whose name the phrase does not
   * find; keep every other row when a bound is missing; otherwise build both bounds and the
   * row's start day as dates (a ValueError for a day that does not exist, or the start-day
   * reader's error) and keep the row when its day is within the bounds.
   */
  function Verdict(pattern: string, row: Row, startDate: Option<Date>, endDate: Option<Date>): (r: Result<bool>)
    requires Searchable(Lower(pattern))
    ensures r == Ok(true) ==> Search(Lower(pattern), Lower(row.name))
    ensures r.Err? ==> Search(Lower(pattern), Lower(row.name)) && startDate.Some? && endDate.Some?
  {
    if !Search(Lower(pattern), Lower(row.name)) then Ok(false)
    else if startDate.None? || endDate.None? then Ok(true)
    else if !ValidDate(startDate.value) || !ValidDate(endDate.value) then Err(ValueError)
    else
      var d := StartDate(row);
      if d.Err? then Err(d.error)
      else if !ValidDate(d.value) then Err(ValueError)
      else Ok(InDays(d.value, startDate.value, endDate.value))
  }

  /** The verdicts on the rows, in table order. */
  function Verdicts(pattern: string, rows: seq<Row>, startDate: Option<Date>, endDate: Option<Date>): (r: seq<Result<bool>>)
    requires Searchable(Lower(pattern))
    ensures |r| == |rows|
  {
    if |rows| == 0 then []
    else Verdicts(pattern, rows[..|rows| - 1], startDate, endDate) + [Verdict(pattern, rows[|rows| - 1], startDate, endDate)]
  }

  lemma {:induction false} VerdictsAt(pattern: string, rows: seq<Row>, startDate: Option<Date>, endDate: Option<Date>, i: nat)
    requires Searchable(Lower(pattern)) && i < |rows|
    ensures Verdicts(pattern, rows, startDate, endDate)[i] == Verdict(pattern, rows[i], startDate, endDate)
  {
    var n := |rows| - 1;
    if i < n {
      VerdictsAt(pattern, rows[..n], startDate, endDate, i);
    }
  }

  /**
   * The rows the verdicts keep, in table order; the first error in table order, where a
   * kept row whose signed-up count is not an `int` is a ValueError.
   */
  function Kept(rows: seq<Row>, verdicts: seq<Result<bool>>): (r: Result<seq<Row>>)
    requires |verdicts| == |rows|
    ensures r.Ok? ==> |r.value| <= |rows|
  {
    if |rows| == 0 then Ok([])
    else
      var n := |rows| - 1;
      match Kept(rows[..n], verdicts[..n])
      case Err(e) => Err(e)
      case Ok(found) =>
        match verdicts[n]
        case Err(e) => Err(e)
        case Ok(keep) =>
          if !keep then Ok(found)
          else if IsInt(rows[n].signedUp) then Ok(found + [rows[n]])
          else Err(ValueError)
  }

  /** `find_workshops_with_search_phrase` on the table's rows. */
  function PhraseSearch(pattern: string, rows: seq<Row>, startDate: Option<Date>, endDate: Option<Date>): Result<seq<Row>>
    requires Searchable(Lower(pattern))
  {
    Kept(rows, Verdicts(pattern, rows, startDate, endDate))
  }

  lemma KeptStep(rows: seq<Row>, verdicts: seq<Result<bool>>, i: nat)
    requires |verdicts| == |rows| && i < |rows|
    ensures Kept(rows[..i + 1], verdicts[..i + 1])
      == match Kept(rows[..i], verdicts[..i])
         case Err(e) => Err(e)
         case Ok(found) =>
           match verdicts[i]
           case Err(e) => Err(e)
           case Ok(keep) =>
             if !keep then Ok(found)
             else if IsInt(rows[i].signedUp) then Ok(found + [rows[i]])
             else Err(ValueError)
  {
    assert rows[..i + 1][..i] == rows[..i];
    assert verdicts[..i + 1][..i] == verdicts[..i];
  }

  /** Once the rows up to `i` end in an error, so do all of them. */
  lemma {:induction false} KeptErrorPersists(rows: seq<Row>, verdicts: seq<Result<bool>>, i: nat)
    requires |verdicts| == |rows| && i < |rows|
    requires Kept(rows[..i + 1], verdicts[..i + 1]).Err?
    ensures Kept(rows, verdicts) == Kept(rows[..i + 1], verdicts[..i + 1])
  {
    var n := |rows| - 1;
    if i == n {
      assert rows[..i + 1] == rows && verdicts[..i + 1] == verdicts;
    } else {
      assert rows[..n][..i + 1] == rows[..i + 1];
      assert verdicts[..n][..i + 1] == verdicts[..i + 1];
      KeptErrorPersists(rows[..n], verdicts[..n], i);
    }
  }

  /**
   * When the rows are kept without error, no verdict was an error, and a row is kept
   * exactly when some verdict on it says so.
   */
  lemma {:induction false} KeptMembers(rows: seq<Row>, verdicts: seq<Result<bool>>)
    requires |verdicts| == |rows| && Kept(rows, verdicts).Ok?
    ensures forall i :: 0 <= i < |rows| ==> verdicts[i].Ok?
    ensures forall row :: (row in Kept(rows, verdicts).value
      <==> exists i :: 0 <= i < |rows| && rows[i] == row && verdicts[i] == Ok(true))
  {
    if |rows| > 0 {
      var n := |rows| - 1;
      KeptMembers(rows[..n], verdicts[..n]);
      assert forall i :: 0 <= i < n ==> rows[..n][i] == rows[i] && verdicts[..n][i] == verdicts[i];
    }
  }

  /** The rows whose name the phrase finds, in table order: the search without a date range. */
  function NameMatches(pattern: string, rows: seq<Row>): (r: seq<Row>)
    requires Searchable(Lower(pattern))
    ensures |r| <= |rows|
  {
    if |rows| == 0 then []
    else
      var n := |rows| - 1;
      NameMatches(pattern, rows[..n]) + if Search(Lower(pattern), Lower(rows[n].name)) then [rows[n]] else []
  }

  /** The sum of the signed-up counts, when every one of them is an `int`. */
  function RowsSignedUp(rows: seq<Row>): Option<int>
  {
    if |rows| == 0 then Some(0)
    else
      var sofar := RowsSignedUp(rows[..|rows| - 1]);
      var n := ParseInt(rows[|rows| - 1].signedUp);
      if sofar.None? || n.None? then None else Some(sofar.value + n.value)
  }

  lemma RowsSignedUpSnoc(rows: seq<Row>, row: Row)
    ensures RowsSignedUp(rows + [row]) == if RowsSignedUp(rows).None? || ParseInt(row.signedUp).None? then None
      else Some(RowsSignedUp(rows).value + ParseInt(row.signedUp).value)
  {
    assert (rows + [row])[..|rows|] == rows;
  }

  /** The sum is defined exactly when every signed-up count is an `int`. */
  lemma {:induction false} RowsSignedUpDefined(rows: seq<Row>)
    ensures RowsSignedUp(rows).Some? <==> forall i :: 0 <= i < |rows| ==> IsInt(rows[i].signedUp)
  {
    if |rows| > 0 {
      var init := rows[..|rows| - 1];
      RowsSignedUpDefined(init);
      assert forall i :: 0 <= i < |init| ==> init[i] == rows[i];
    }
  }

  /**
   * Without both bounds the search keeps exactly the rows whose name the phrase finds, or
   * fails with a ValueError when one of them has a signed-up count that is not an `int`.
   */
  lemma {:induction false} NoDateKeepsMatches(pattern: string, rows: seq<Row>, startDate: Option<Date>, endDate: Option<Date>)
    requires Searchable(Lower(pattern)) && (startDate.None? || endDate.None?)
    ensures PhraseSearch(pattern, rows, startDate, endDate)
      == if RowsSignedUp(NameMatches(pattern, rows)).Some? then Ok(NameMatches(pattern, rows)) else Err(ValueError)
  {
    if |rows| > 0 {
      var n := |rows| - 1;
      var init := rows[..n];
      NoDateKeepsMatches(pattern, init, startDate, endDate);
      var vs := Verdicts(pattern, rows, startDate, endDate);
      assert vs[..n] == Verdicts(pattern, init, startDate, endDate);
      var row := rows[n];
      if Search(Lower(pattern), Lower(row.name)) {
        RowsSignedUpSnoc(NameMatches(pattern, init), row);
      } else {
        assert NameMatches(pattern, rows) == NameMatches(pattern, init);
      }
    }
  }

  /**
   * With both bounds, a search without error keeps exactly the rows whose name the phrase
   * finds and whose start day is within the bounds, both days included.
   */
  lemma DateSearchMembers(pattern: string, rows: seq<Row>, startDate: Option<Date>, endDate: Option<Date>)
    requires Searchable(Lower(pattern)) && startDate.Some? && endDate.Some?
    requires PhraseSearch(pattern, rows, startDate, endDate).Ok?
    ensures forall row :: (row in PhraseSearch(pattern, rows, startDate, endDate).value
      <==> (row in rows && Search(Lower(pattern), Lower(row.name))
            && StartDate(row).Ok? && InDays(StartDate(row).value, startDate.value, endDate.value)))
  {
    var vs := Verdicts(pattern, rows, startDate, endDate);
    KeptMembers(rows, vs);
    forall i | 0 <= i < |rows|
      ensures vs[i] == Ok(true) <==> (Search(Lower(pattern), Lower(rows[i].name))
        && StartDate(rows[i]).Ok? && InDays(StartDate(rows[i]).value, startDate.value, endDate.value))
    {
      VerdictsAt(pattern, rows, startDate, endDate, i);
    }
  }

  // --------------------------------------------------------------- id search

  /** The rows with the id, in table order, duplicates included. */
  function WithId(rows: seq<Row>, id: string): (r: seq<Row>)
    ensures |r| <= |rows|
  {
    if |rows| == 0 then []
    else
      var n := |rows| - 1;
      WithId(rows[..n], id) + if rows[n].id == id then [rows[n]] else []
  }

  /** A row is found exactly when it is in the table with the id. */
  lemma {:induction false} WithIdMembers(rows: seq<Row>, id: string)
    ensures forall row :: row in WithId(rows, id) <==> row in rows && row.id == id
  {
    if |rows| > 0 {
      var n := |rows| - 1;
      WithIdMembers(rows[..n], id);
      assert rows == rows[..n] + [rows[n]];
    }
  }

  /** Every row is kept, in order, when they all carry the id: duplicate ids are not dropped. */
  lemma {:induction false} WithIdKeepsDuplicates(rows: seq<Row>, id: string)
    requires forall i :: 0 <= i < |rows| ==> rows[i].id == id
    ensures WithId(rows, id) == rows
  {
    if |rows| > 0 {
      var n := |rows| - 1;
      WithIdKeepsDuplicates(rows[..n], id);
      assert rows[..n] + [rows[n]] == rows;
    }
  }

  lemma WithIdStep(rows: seq<Row>, id: string, i: nat)
    requires i < |rows|
    ensures WithId(rows[..i + 1], id) == WithId(rows[..i], id) + if rows[i].id == id then [rows[i]] else []
  {
    assert rows[..i + 1][..i] == rows[..i];
  }

  /** A row with the id whose signed-up count is not an `int` leaves the sum undefined. */
  lemma WithIdUncounted(rows: seq<Row>, id: string, i: nat)
    requires i < |rows| && rows[i].id == id && !IsInt(rows[i].signedUp)
    ensures RowsSignedUp(WithId(rows, id)).None?
  {
    var found := WithId(rows, id);
    WithIdMembers(rows, id);
    assert rows[i] in found;
    var j :| 0 <= j < |found| && found[j] == rows[i];
    RowsSignedUpDefined(found);
  }

  // ---------------------------------------------------------- user information

  /** What `storeUserInfo` writes: the user name, a newline, the password. */
  function UserInfoText(userName: string, userPassword: string): string
  {
    userName + "\n" + userPassword
  }

  /** What `getUserInfo` reads: the first two lines, stripped; a missing line reads as empty. */
  function ReadUserInfo(contents: string): (r: (string, string))
    ensures r.1 != "" ==> '\n' in contents
  {
    var lines := Split(contents, "\n");
    assert |lines| == 1 <==> '\n' !in contents by {
      SplitCharLength(contents, '\n');
      CountAbsentIff(contents, '\n');
    }
    (Strip(lines[0]), if |lines| > 1 then Strip(lines[1]) else "")
  }

  /** Credentials without a newline and without surrounding whitespace are read back as written. */
  lemma UserInfoRoundTrip(userName: string, userPassword: string)
    requires '\n' !in userName && '\n' !in userPassword
    requires IsStripped(userName) && IsStripped(userPassword)
    ensures ReadUserInfo(UserInfoText(userName, userPassword)) == (userName, userPassword)
  {
    CharNotContained(userName, '\n');
    SplitOnFirst(userName, "\n", userPassword);
    CharNotContained(userPassword, '\n');
    SplitNoOccurrence(userPassword, "\n");
    StripStripped(userName);
    StripStripped(userPassword);
  }

  /** Unicode spaces around a credential are stripped as `str.strip()` strips them. */
  lemma ReadUserInfoStripsIdeographicSpace()
    ensures ReadUserInfo("alice\U{3000}\npw") == ("alice", "pw")
  {
    var name, password := "alice\U{3000}", "pw";
    CharNotContained(name, '\n');
    SplitOnFirst(name, "\n", password);
    CharNotContained(password, '\n');
    SplitNoOccurrence(password, "\n");
    assert UserInfoText(name, password) == "alice\U{3000}\npw";
    assert TrimRight(name) == TrimRight("alice");
    StripStripped("alice");
    StripStripped(password);
  }

  // -------------------------------------------------------- table rows on load

  /** A row of the instructor table with the roster fetched for it. */
  datatype Entry = Entry(listing: Listing, participants: seq<Participant>)

  /**
   * The body of the loop in `connectAndUpdateDatabase` for one table row: the listing (with
   * the `urlBase` entry as url base, a KeyError when it is missing), then the roster read
   * from the participant page of `partInfoBaseURL` followed by the id.
   */
  function EntryOfRow(text: string, urlInfo: map<string, string>, participantPage: string -> seq<string>): (r: Result<Entry>)
    ensures r.Err? ==> r.error == IndexError || r.error == KeyError
    ensures r.Ok? ==> ("urlBase" in urlInfo && "partInfoBaseURL" in urlInfo
      && r.value.listing.url == urlInfo["urlBase"] + r.value.listing.id && |r.value.listing.id| <= 6
      && Roster(participantPage(urlInfo["partInfoBaseURL"] + r.value.listing.id)) == Ok(r.value.participants))
  {
    var listing := ParseListingRow(text, if "urlBase" in urlInfo then urlInfo["urlBase"] else "");
    if listing.Err? then Err(listing.error)
    else if "urlBase" !in urlInfo || "partInfoBaseURL" !in urlInfo then Err(KeyError)
    else
      var roster := Roster(participantPage(urlInfo["partInfoBaseURL"] + listing.value.id));
      if roster.Err? then Err(roster.error) else Ok(Entry(listing.value, roster.value))
  }

  function EntryResults(rows: seq<string>, urlInfo: map<string, string>, participantPage: string -> seq<string>): (r: seq<Result<Entry>>)
    ensures |r| == |rows|
    ensures forall i {:trigger r[i]} :: 0 <= i < |rows| ==> r[i] == EntryOfRow(rows[i], urlInfo, participantPage)
  {
    seq(|rows|, i requires 0 <= i < |rows| => EntryOfRow(rows[i], urlInfo, participantPage))
  }

  // ------------------------------------------------------------------ the class

  /** The search's verdict on row `i`, computed as the loop body does. */
  method RowVerdict(pattern: string, db: seq<Row>, i: nat, startDate: Option<Date>, endDate: Option<Date>) returns (v: Result<bool>)
    requires Searchable(Lower(pattern)) && i < |db|
    ensures v == Verdicts(pattern, db, startDate, endDate)[i]
  {
    VerdictsAt(pattern, db, startDate, endDate, i);
    if !Search(Lower(pattern), Lower(db[i].name)) {
      return Ok(false);
    }
    if startDate.None? || endDate.None? {
      return Ok(true);
    }
    if !ValidDate(startDate.value) || !ValidDate(endDate.value) {
      return Err(ValueError);
    }
    var start := StartDate(db[i]);
    if start.Err? {
      return Err(start.error);
    }
    if !ValidDate(start.value) {
      return Err(ValueError);
    }
    v := Ok(InDays(start.value, startDate.value, endDate.value));
  }

  /**
   * One round of the phrase loop: the `i`-th row's verdict, and when it is kept, the row
   * appended and its count added. An error ends the whole search with that error.
   */
  method SearchStep(pattern: string, db: seq<Row>, i: nat, startDate: Option<Date>, endDate: Option<Date>,
                    found: seq<Row>, total: int) returns (r: Result<seq<Row>>, total': int)
    requires Searchable(Lower(pattern)) && i < |db|
    requires Kept(db[..i], Verdicts(pattern, db, startDate, endDate)[..i]) == Ok(found)
    requires RowsSignedUp(found) == Some(total)
    ensures r.Err? ==> PhraseSearch(pattern, db, startDate, endDate) == r
    ensures r.Ok? ==> (Kept(db[..i + 1], Verdicts(pattern, db, startDate, endDate)[..i + 1]) == r
      && RowsSignedUp(r.value) == Some(total'))
  {
    ghost var verdicts := Verdicts(pattern, db, startDate, endDate);
    KeptStep(db, verdicts, i);
    total' := total;
    var v := RowVerdict(pattern, db, i, startDate, endDate);
    if v.Err? {
      KeptErrorPersists(db, verdicts, i);
      return Err(v.error), total;
    }
    r := Ok(found);
    if v.value {
      var n := ParseInt(db[i].signedUp);
      if n.None? {
        KeptErrorPersists(db, verdicts, i);
        return Err(ValueError), total;
      }
      RowsSignedUpSnoc(found, db[i]);
      r, total' := Ok(found + [db[i]]), total + n.value;
    }
  }

  /**
   * The loop of `find_workshops_with_search_phrase`: the rows the search keeps, in table
   * order, and the sum of their signed-up counts up to the row that ends it.
   */
  method SearchAndCount(pattern: string, db: seq<Row>, startDate: Option<Date>, endDate: Option<Date>)
    returns (r: Result<seq<Row>>, total: int)
    requires Searchable(Lower(pattern))
    ensures r == PhraseSearch(pattern, db, startDate, endDate)
    ensures r.Ok? ==> RowsSignedUp(r.value) == Some(total)
  {
    ghost var verdicts := Verdicts(pattern, db, startDate, endDate);
    var found: seq<Row> := [];
    total := 0;
    for i := 0 to |db|
      invariant Kept(db[..i], verdicts[..i]) == Ok(found)
      invariant RowsSignedUp(found) == Some(total)
    {
      var step;
      step, total := SearchStep(pattern, db, i, startDate, endDate, found, total);
      if step.Err? {
        return step, total;
      }
      found := step.value;
    }
    PrefixWhole(db);
    PrefixWhole(verdicts);
    r := Ok(found);
  }

  /**
   * The loop of `find_with_workshop_ID`: every row with the id, in table order, and the sum
   * of their signed-up counts; it fails at the first such row whose count is not an `int`.
   */
  method IdMatchesAndCount(id: string, db: seq<Row>) returns (found: seq<Row>, total: int, failed: bool)
    ensures failed <==> RowsSignedUp(WithId(db, id)).None?
    ensures !failed ==> found == WithId(db, id) && RowsSignedUp(found) == Some(total)
  {
    found, total, failed := [], 0, false;
    for i := 0 to |db|
      invariant found == WithId(db[..i], id)
      invariant RowsSignedUp(found) == Some(total)
      invariant !failed
    {
      WithIdStep(db, id, i);
      if id == db[i].id {
        var n := ParseInt(db[i].signedUp);
        if n.None? {
          WithIdUncounted(db, id, i);
          return found + [db[i]], total, true;
        }
        RowsSignedUpSnoc(found, db[i]);
        found := found + [db[i]];
        total := total + n.value;
      }
    }
    PrefixWhole(db);
  }

  class Workshops {
    /** The escaped phrase the next search uses. */
    var searchPhrase: string
    var numberOfWorkshops: int
    var numberOfParticipants: int
    var userName: string
    var userPassword: string

    /** No phrase, no counts and no credentials. */
    constructor()
      ensures searchPhrase == "" && numberOfWorkshops == 0 && numberOfParticipants == 0
      ensures userName == "" && userPassword == ""
    {
      searchPhrase := "";
      numberOfWorkshops := 0;
      numberOfParticipants := 0;
      userName := "";
      userPassword := "";
    }

    /** The phrase with every regular-expression symbol escaped by a backslash, in symbol order. */
    method SetPhrase(phrase: string)
      modifies this
      ensures searchPhrase == Escape(phrase)
      ensures numberOfWorkshops == old(numberOfWorkshops) && numberOfParticipants == old(numberOfParticipants)
      ensures userName == old(userName) && userPassword == old(userPassword)
    {
      var p := phrase;
      for k := 0 to |Symbols|
        invariant EscapeFrom(p, k) == Escape(phrase)
      {
        p := Replace(p, Symbols[k], ['\\', Symbols[k]]);
      }
      searchPhrase := p;
    }

    /**
     * The rows of the phrase search, in table order, with the participant count raised by
     * the sum of their signed-up counts.
     */
    method FindWorkshopsWithSearchPhrase(startDate: Option<Date>, endDate: Option<Date>, db: seq<Row>)
      returns (r: Result<seq<Row>>)
      requires Searchable(Lower(searchPhrase))
      modifies this
      ensures searchPhrase == old(searchPhrase) && numberOfWorkshops == old(numberOfWorkshops)
      ensures r == PhraseSearch(searchPhrase, db, startDate, endDate)
      ensures r.Ok? ==> (RowsSignedUp(r.value).Some?
        && numberOfParticipants == old(numberOfParticipants) + RowsSignedUp(r.value).value)
      ensures userName == old(userName) && userPassword == old(userPassword)
    {
      var added;
      r, added := SearchAndCount(searchPhrase, db, startDate, endDate);
      numberOfParticipants := numberOfParticipants + added;
    }

    /**
     * Every row with the id, in table order, with the participant count raised by the sum of
     * their signed-up counts; a ValueError when one of those counts is not an `int`. The list
     * passed in is not read.
     */
    method FindWithWorkshopId(searchWorkshopId: string, db: seq<Row>, workshopList: seq<Row>) returns (r: Result<seq<Row>>)
      modifies this
      ensures r.Ok? <==> RowsSignedUp(WithId(db, searchWorkshopId)).Some?
      ensures r.Err? ==> r.error == ValueError
      ensures r.Ok? ==> (r.value == WithId(db, searchWorkshopId)
        && numberOfParticipants == old(numberOfParticipants) + RowsSignedUp(r.value).value)
      ensures searchPhrase == old(searchPhrase) && numberOfWorkshops == old(numberOfWorkshops)
      ensures userName == old(userName) && userPassword == old(userPassword)
    {
      var found, added, failed := IdMatchesAndCount(searchWorkshopId, db);
      numberOfParticipants := numberOfParticipants + added;
      if failed {
        return Err(ValueError);
      }
      r := Ok(found);
    }

    /**
     * The participant count starts again from 0. A search by id fails with a TypeError: the
     * id search is called with two of its three arguments. Otherwise the phrase search, with
     * the workshop count set to the number of rows it found.
     */
    method GetMatchingWorkshops(db: seq<Row>, searchWorkshopId: Option<string>, startDate: Option<Date>, endDate: Option<Date>)
      returns (r: Result<seq<Row>>)
      requires searchWorkshopId.None? ==> Searchable(Lower(searchPhrase))
      modifies this
      ensures searchPhrase == old(searchPhrase)
      ensures searchWorkshopId.Some? ==> (r == Err(TypeError)
        && numberOfParticipants == 0 && numberOfWorkshops == old(numberOfWorkshops))
      ensures searchWorkshopId.None? ==> r == PhraseSearch(searchPhrase, db, startDate, endDate)
      ensures r.Ok? ==> (numberOfWorkshops == |r.value|
        && RowsSignedUp(r.value).Some? && numberOfParticipants == RowsSignedUp(r.value).value)
      ensures userName == old(userName) && userPassword == old(userPassword)
    {
      numberOfParticipants := 0;
      if searchWorkshopId.Some? {
        return Err(TypeError);
      }
      r := FindWorkshopsWithSearchPhrase(startDate, endDate, db);
      if r.Ok? {
        numberOfWorkshops := |r.value|;
      }
    }

    /** The e-mails of the rows' participants, row by row, joined by `";\n"`; a fixed notice when that is empty. */
    method GetEmails(workshops: seq<Row>) returns (r: string)
      ensures r == EmailText(EmailsOf(RowRosters(workshops)))
    {
      var emails: seq<string> := [];
      for i := 0 to |workshops|
        invariant emails == EmailsOf(RowRosters(workshops[..i]))
      {
        var roster := workshops[i].participants;
        if roster != [] {
          for j := 0 to |roster|
            invariant emails == EmailsOf(RowRosters(workshops[..i])) + RosterEmails(roster[..j])
          {
            emails := emails + [roster[j].email];
          }
          assert roster[..|roster|] == roster;
        }
        assert RowRosters(workshops[..i + 1])[..i] == RowRosters(workshops[..i]);
      }
      assert workshops[..|workshops|] == workshops;
      var joined := Join(emails, EmailSeparator);
      if joined == "" {
        r := NoEmails;
      } else {
        r := joined;
      }
    }

    /**
     * The roster on the participant page of `partInfoBaseURL` followed by the id: a KeyError
     * when that entry is missing, an IndexError for a row with one or two lines after its first.
     */
    method GetParticipantInfo(id: string, urlInfo: map<string, string>, participantPage: string -> seq<string>)
      returns (r: Result<seq<Participant>>)
      ensures "partInfoBaseURL" !in urlInfo ==> r == Err(KeyError)
      ensures "partInfoBaseURL" in urlInfo ==> r == Roster(participantPage(urlInfo["partInfoBaseURL"] + id))
    {
      if "partInfoBaseURL" !in urlInfo {
        return Err(KeyError);
      }
      var content := participantPage(urlInfo["partInfoBaseURL"] + id);
      var items := seq(|content|, i requires 0 <= i < |content| => Drop(Split(content[i], "\n"), 1));
      var participantsList: seq<Participant> := [];
      for i := 0 to |items|
        invariant Roster(content[..i]) == Ok(participantsList)
      {
        assert content[..i + 1][..i] == content[..i];
        var item := items[i];
        if |item| > 0 {
          if |item| < 3 {
            assert RosterEntry(content[i]).Err?;
            return Err(IndexError);
          }
          participantsList := participantsList + [Participant(item[0], item[1], item[2])];
        }
      }
      assert content[..|content|] == content;
      r := Ok(participantsList);
    }

    /** One table row turned into the record given to the database. */
    method EntryFromRow(text: string, urlInfo: map<string, string>, participantPage: string -> seq<string>)
      returns (r: Result<Entry>)
      ensures r == EntryOfRow(text, urlInfo, participantPage)
    {
      var listing := ParseListingRow(text, if "urlBase" in urlInfo then urlInfo["urlBase"] else "");
      if listing.Err? {
        return Err(listing.error);
      }
      if "urlBase" !in urlInfo {
        return Err(KeyError);
      }
      var participants := GetParticipantInfo(listing.value.id, urlInfo, participantPage);
      if participants.Err? {
        return Err(participants.error);
      }
      r := Ok(Entry(listing.value, participants.value));
    }

    /**
     * The rows of the instructor table, header skipped, each turned into the record given to
     * the database; the first row's error stops the load.
     */
    method ReadTableRows(tableRows: seq<string>, urlInfo: map<string, string>, participantPage: string -> seq<string>)
      returns (r: Result<seq<Entry>>)
      ensures r == Collect(EntryResults(Drop(tableRows, 1), urlInfo, participantPage))
    {
      var workshopsContent := Drop(tableRows, 1);
      ghost var results := EntryResults(workshopsContent, urlInfo, participantPage);
      var entries: seq<Entry> := [];
      for i := 0 to |workshopsContent|
        invariant Collect(results[..i]) == Ok(entries)
      {
        assert results[..i + 1][..i] == results[..i];
        var entry := EntryFromRow(workshopsContent[i], urlInfo, participantPage);
        if entry.Err? {
          CollectFirstError(results, i);
          return Err(entry.error);
        }
        entries := entries + [entry.value];
      }
      assert results[..|workshopsContent|] == results;
      r := Ok(entries);
    }

    /** The contents `storeUserInfo` writes to the credentials file. */
    function StoredUserInfo(): (contents: string)
      reads this
      ensures |contents| == |userName| + 1 + |userPassword|
      ensures contents[|userName|] == '\n'
    {
      UserInfoText(userName, userPassword)
    }

    /** The credentials read back from the file's contents. */
    method GetUserInfo(contents: string)
      modifies this
      ensures (userName, userPassword) == ReadUserInfo(contents)
      ensures searchPhrase == old(searchPhrase)
      ensures numberOfWorkshops == old(numberOfWorkshops) && numberOfParticipants == old(numberOfParticipants)
    {
      var lines := Split(contents, "\n");
      userName := Strip(lines[0]);
      userPassword := if |lines| > 1 then Strip(lines[1]) else "";
    }
  }
}
