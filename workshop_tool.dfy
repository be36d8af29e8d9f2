/**
 * The newer search tool, `WorkshopsTool`: it escapes the search phrase, filters the stored
 * workshops by phrase, by date range or by id while keeping a count of the workshops and
 * of their signed-up participants, joins the e-mails of the last result, and turns the
 * scraped pages into the workshop records the database is given. The database is the
 * sequence of stored workshop records; a scraped page is the sequence of its elements' texts.
 */
module WorkshopTool {
  import opened Wrappers
  import opened Strings
  import opened Dates
  import opened Pattern
  import opened Records
  import opened Extract
  import opened Connection

  // ------------------------------------------------------ what a search keeps

  /** The workshops of `db` whose lower-cased name the lower-cased pattern finds, in `db` order. */
  function PhraseMatches(pattern: string, db: seq<Workshop>): (r: seq<Workshop>)
    requires Searchable(Lower(pattern))
    ensures |r| <= |db|
  {
    if |db| == 0 then []
    else
      var last := db[|db| - 1];
      assert db == db[..|db| - 1] + [last];
      var init := PhraseMatches(pattern, db[..|db| - 1]);
      if Search(Lower(pattern), Lower(last.name)) then init + [last] else init
  }

  lemma {:induction false} PhraseMatchesMembers(pattern: string, db: seq<Workshop>)
    requires Searchable(Lower(pattern))
    ensures forall w :: w in PhraseMatches(pattern, db) <==> w in db && Search(Lower(pattern), Lower(w.name))
  {
    if |db| > 0 {
      PhraseMatchesMembers(pattern, db[..|db| - 1]);
      assert db == db[..|db| - 1] + [db[|db| - 1]];
    }
  }

  /** Filtering a concatenation filters each part: the matches keep their database order. */
  lemma {:induction false} PhraseMatchesAppend(pattern: string, a: seq<Workshop>, b: seq<Workshop>)
    requires Searchable(Lower(pattern))
    ensures PhraseMatches(pattern, a + b) == PhraseMatches(pattern, a) + PhraseMatches(pattern, b)
  {
    if |b| > 0 {
      var init := b[..|b| - 1];
      PhraseMatchesAppend(pattern, a, init);
      assert (a + b)[..|a + b| - 1] == a + init;
    } else {
      assert a + b == a;
    }
  }

  /** For a phrase without `?`, `[` or `]`, the escaped phrase keeps exactly the names containing the phrase, ignoring case. */
  lemma PhraseMatchesContaining(phrase: string, db: seq<Workshop>)
    requires '?' !in phrase && '[' !in phrase && ']' !in phrase
    ensures Searchable(Lower(Escape(phrase)))
    ensures forall w :: w in PhraseMatches(Escape(phrase), db) <==> w in db && Contains(Lower(w.name), Lower(phrase))
  {
    SearchEscaped(phrase, "");
    PhraseMatchesMembers(Escape(phrase), db);
    forall w | w in db ensures Search(Lower(Escape(phrase)), Lower(w.name)) <==> Contains(Lower(w.name), Lower(phrase)) {
      SearchEscaped(phrase, w.name);
    }
  }

  /** The empty phrase keeps every workshop. */
  lemma {:induction false} EmptyPhraseMatchesAll(db: seq<Workshop>)
    ensures Searchable(Lower(Escape(""))) && PhraseMatches(Escape(""), db) == db
  {
    EmptyPhraseFindsAll("");
    if |db| > 0 {
      EmptyPhraseMatchesAll(db[..|db| - 1]);
      EmptyPhraseFindsAll(Lower(db[|db| - 1].name));
      SplitLast(db);
    }
  }

  /** The sum of `int(signed_up)` over the workshops; `None` when one of the counts is not an integer. */
  function SignedUpTotal(ws: seq<Workshop>): Option<int>
  {
    if |ws| == 0 then Some(0)
    else
      var sofar := SignedUpTotal(ws[..|ws| - 1]);
      var n := ParseInt(ws[|ws| - 1].signedUp);
      if sofar.None? || n.None? then None else Some(sofar.value + n.value)
  }

  /** The total is defined exactly when every signed-up count is an integer. */
  lemma {:induction false} SignedUpTotalDefined(ws: seq<Workshop>)
    ensures SignedUpTotal(ws).Some? <==> forall i :: 0 <= i < |ws| ==> IsInt(ws[i].signedUp)
  {
    if |ws| > 0 {
      var init := ws[..|ws| - 1];
      SignedUpTotalDefined(init);
      assert forall i :: 0 <= i < |init| ==> init[i] == ws[i];
    }
  }

  /** The total of a concatenation is the sum of the parts' totals. */
  lemma {:induction false} SignedUpTotalAppend(a: seq<Workshop>, b: seq<Workshop>)
    requires SignedUpTotal(a).Some? && SignedUpTotal(b).Some?
    ensures SignedUpTotal(a + b) == Some(SignedUpTotal(a).value + SignedUpTotal(b).value)
  {
    if |b| > 0 {
      var init, last := b[..|b| - 1], b[|b| - 1];
      assert SignedUpTotal(init).Some? && ParseInt(last.signedUp).Some?;
      SignedUpTotalAppend(a, init);
      AppendSnoc(a, b);
      SignedUpTotalSnoc(a + init, last);
    } else {
      assert a + b == a;
    }
  }

  lemma SignedUpTotalSnoc(ws: seq<Workshop>, w: Workshop)
    ensures SignedUpTotal(ws + [w]) == if SignedUpTotal(ws).None? || ParseInt(w.signedUp).None? then None
      else Some(SignedUpTotal(ws).value + ParseInt(w.signedUp).value)
  {
    assert (ws + [w])[..|ws|] == ws;
  }

  /** A matching workshop whose signed-up count is not an integer leaves the matches' total undefined. */
  lemma BadCountMatched(pattern: string, db: seq<Workshop>, i: nat)
    requires Searchable(Lower(pattern)) && i < |db|
    requires Search(Lower(pattern), Lower(db[i].name)) && !IsInt(db[i].signedUp)
    ensures SignedUpTotal(PhraseMatches(pattern, db)).None?
  {
    var all := PhraseMatches(pattern, db);
    PhraseMatchesMembers(pattern, db);
    assert db[i] in all;
    var j :| 0 <= j < |all| && all[j] == db[i];
    SignedUpTotalDefined(all);
  }

  /** Adding a workshop with an integer count adds that count to a defined total. */
  lemma SignedUpTotalAdd(ws: seq<Workshop>, w: Workshop, total: int, n: int)
    requires SignedUpTotal(ws) == Some(total) && ParseInt(w.signedUp) == Some(n)
    ensures SignedUpTotal(ws + [w]) == Some(total + n)
  {
    SignedUpTotalSnoc(ws, w);
  }

  lemma PhraseMatchesStep(pattern: string, db: seq<Workshop>, i: nat)
    requires Searchable(Lower(pattern)) && i < |db|
    ensures PhraseMatches(pattern, db[..i + 1])
      == if Search(Lower(pattern), Lower(db[i].name)) then PhraseMatches(pattern, db[..i]) + [db[i]]
         else PhraseMatches(pattern, db[..i])
  {
    assert db[..i + 1][..i] == db[..i];
  }

  /** Whether a workshop starting at `t` is kept: from midnight of the first day to midnight of the last day. */
  predicate InDateWindow(t: DateTime, first: Date, last: Date)
  {
    DateTimeLe(Midnight(first), t) && DateTimeLe(t, Midnight(last))
  }

  /** Whether a workshop's start text parses with `"%m/%d/%Y %I:%M %p"`. */
  predicate HasStart(w: Workshop)
  {
    ParseDateTime(w.startDateAndTime).Some?
  }

  /** The start of each workshop, as `strptime` reads it. */
  function Starts(ws: seq<Workshop>): (r: seq<Option<DateTime>>)
    ensures |r| == |ws|
  {
    if |ws| == 0 then [] else Starts(ws[..|ws| - 1]) + [ParseDateTime(ws[|ws| - 1].startDateAndTime)]
  }

  lemma {:induction false} StartsAt(ws: seq<Workshop>, i: nat)
    requires i < |ws|
    ensures Starts(ws)[i] == ParseDateTime(ws[i].startDateAndTime)
  {
    if i < |ws| - 1 {
      StartsAt(ws[..|ws| - 1], i);
    }
  }

  /**
   * The workshops, in order, whose start (given alongside) lies in the window; `None` when
   * a start is missing.
   */
  function Window(ws: seq<Workshop>, starts: seq<Option<DateTime>>, first: Date, last: Date): (r: Option<seq<Workshop>>)
    requires |starts| == |ws|
    ensures r.Some? ==> |r.value| <= |ws|
  {
    if |ws| == 0 then Some([])
    else
      var n := |ws| - 1;
      match Window(ws[..n], starts[..n], first, last)
      case None => None
      case Some(kept) =>
        match starts[n]
        case None => None
        case Some(t) => Some(if InDateWindow(t, first, last) then kept + [ws[n]] else kept)
  }

  /** The workshops, in order, whose start lies in the window; `None` when a start does not parse. */
  function DateWindowMatches(ws: seq<Workshop>, first: Date, last: Date): Option<seq<Workshop>>
  {
    Window(ws, Starts(ws), first, last)
  }

  lemma WindowStep(ws: seq<Workshop>, starts: seq<Option<DateTime>>, i: nat, first: Date, last: Date)
    requires |starts| == |ws| && i < |ws|
    ensures Window(ws[..i + 1], starts[..i + 1], first, last) ==
      match Window(ws[..i], starts[..i], first, last)
      case None => None
      case Some(kept) =>
        match starts[i]
        case None => None
        case Some(t) => Some(if InDateWindow(t, first, last) then kept + [ws[i]] else kept)
  {
    assert ws[..i + 1][..i] == ws[..i];
    assert starts[..i + 1][..i] == starts[..i];
  }

  /** One more present start extends the window by its workshop when that start lies in it. */
  lemma WindowNext(ws: seq<Workshop>, starts: seq<Option<DateTime>>, i: nat, first: Date, last: Date, kept: seq<Workshop>)
    requires |starts| == |ws| && i < |ws| && starts[i].Some?
    requires Window(ws[..i], starts[..i], first, last) == Some(kept)
    ensures Window(ws[..i + 1], starts[..i + 1], first, last)
      == Some(if InDateWindow(starts[i].value, first, last) then kept + [ws[i]] else kept)
  {
    WindowStep(ws, starts, i, first, last);
  }

  /** The window over every workshop is the date filter. */
  lemma WindowWhole(ws: seq<Workshop>, first: Date, last: Date, kept: seq<Workshop>)
    requires Window(ws[..|ws|], Starts(ws)[..|ws|], first, last) == Some(kept)
    ensures DateWindowMatches(ws, first, last) == Some(kept)
  {
    assert ws[..|ws|] == ws;
    assert Starts(ws)[..|ws|] == Starts(ws);
  }

  /** The window is defined exactly when every start is present. */
  lemma {:induction false} WindowDefined(ws: seq<Workshop>, starts: seq<Option<DateTime>>, first: Date, last: Date)
    requires |starts| == |ws|
    ensures Window(ws, starts, first, last).Some? <==> forall i :: 0 <= i < |ws| ==> starts[i].Some?
  {
    if |ws| > 0 {
      var n := |ws| - 1;
      WindowDefined(ws[..n], starts[..n], first, last);
      assert forall i :: 0 <= i < n ==> starts[..n][i] == starts[i];
    }
  }

  /** The window keeps exactly the workshops at positions whose start lies in it. */
  lemma {:induction false} WindowMembers(ws: seq<Workshop>, starts: seq<Option<DateTime>>, first: Date, last: Date)
    requires |starts| == |ws| && Window(ws, starts, first, last).Some?
    ensures forall w :: w in Window(ws, starts, first, last).value <==>
      exists i :: 0 <= i < |ws| && ws[i] == w && starts[i].Some? && InDateWindow(starts[i].value, first, last)
  {
    if |ws| > 0 {
      var n := |ws| - 1;
      WindowMembers(ws[..n], starts[..n], first, last);
      var kept := Window(ws[..n], starts[..n], first, last).value;
      forall w | w in Window(ws, starts, first, last).value
        ensures exists i :: 0 <= i < |ws| && ws[i] == w && starts[i].Some? && InDateWindow(starts[i].value, first, last)
      {
        if w in kept {
          var i :| 0 <= i < n && ws[..n][i] == w && starts[..n][i].Some? && InDateWindow(starts[..n][i].value, first, last);
          assert ws[i] == w && starts[i] == starts[..n][i];
        } else {
          assert ws[n] == w;
        }
      }
      forall w | exists i :: 0 <= i < |ws| && ws[i] == w && starts[i].Some? && InDateWindow(starts[i].value, first, last)
        ensures w in Window(ws, starts, first, last).value
      {
        var i :| 0 <= i < |ws| && ws[i] == w && starts[i].Some? && InDateWindow(starts[i].value, first, last);
        if i < n {
          assert ws[..n][i] == w && starts[..n][i] == starts[i];
        }
      }
    }
  }

  /** The date filter is defined exactly when every start parses. */
  lemma DateWindowDefined(ws: seq<Workshop>, first: Date, last: Date)
    ensures DateWindowMatches(ws, first, last).Some? <==> forall i :: 0 <= i < |ws| ==> HasStart(ws[i])
  {
    var starts := Starts(ws);
    WindowDefined(ws, starts, first, last);
    forall i | 0 <= i < |ws| ensures starts[i].Some? <==> HasStart(ws[i]) {
      StartsAt(ws, i);
    }
  }

  /** The date filter keeps exactly the workshops whose start lies in the window. */
  lemma DateWindowMembers(ws: seq<Workshop>, first: Date, last: Date)
    requires DateWindowMatches(ws, first, last).Some?
    ensures forall w :: w in DateWindowMatches(ws, first, last).value <==>
      w in ws && HasStart(w) && InDateWindow(ParseDateTime(w.startDateAndTime).value, first, last)
  {
    var starts := Starts(ws);
    WindowMembers(ws, starts, first, last);
    forall w | w in Window(ws, starts, first, last).value
      ensures w in ws && HasStart(w) && InDateWindow(ParseDateTime(w.startDateAndTime).value, first, last)
    {
      var i :| 0 <= i < |ws| && ws[i] == w && starts[i].Some? && InDateWindow(starts[i].value, first, last);
      StartsAt(ws, i);
    }
    forall w | w in ws && HasStart(w) && InDateWindow(ParseDateTime(w.startDateAndTime).value, first, last)
      ensures exists i :: 0 <= i < |ws| && ws[i] == w && starts[i].Some? && InDateWindow(starts[i].value, first, last)
    {
      var i :| 0 <= i < |ws| && ws[i] == w;
      StartsAt(ws, i);
    }
  }

  /** A kept workshop whose signed-up count is not an integer leaves the total of the kept ones undefined. */
  lemma WindowUncounted(ws: seq<Workshop>, starts: seq<Option<DateTime>>, i: nat, first: Date, last: Date)
    requires |starts| == |ws| && i < |ws| && starts[i].Some? && InDateWindow(starts[i].value, first, last)
    requires !IsInt(ws[i].signedUp)
    ensures Window(ws, starts, first, last).None? || SignedUpTotal(Window(ws, starts, first, last).value).None?
  {
    var kept := Window(ws, starts, first, last);
    if kept.Some? {
      WindowMembers(ws, starts, first, last);
      assert ws[i] in kept.value;
      var j :| 0 <= j < |kept.value| && kept.value[j] == ws[i];
      SignedUpTotalDefined(kept.value);
      assert !IsInt(kept.value[j].signedUp);
    }
  }

  /**
   * A workshop is kept exactly when its day is within the range, except that on the last
   * day only a workshop starting at midnight is kept.
   */
  lemma DateWindowDays(ws: seq<Workshop>, first: Date, last: Date, w: Workshop)
    requires DateWindowMatches(ws, first, last).Some? && w in ws
    ensures HasStart(w)
    ensures w in DateWindowMatches(ws, first, last).value <==>
      var t := ParseDateTime(w.startDateAndTime).value;
      DateLe(first, t.date) && DateLe(t.date, last) && (t.date == last ==> t.hour == 0 && t.minute == 0)
  {
    DateWindowDefined(ws, first, last);
    DateWindowMembers(ws, first, last);
    var i :| 0 <= i < |ws| && ws[i] == w;
    assert HasStart(ws[i]);
    MidnightWindow(ParseDateTime(w.startDateAndTime).value, first, last);
  }

  /** The position of the first workshop of `db` with the id, if there is one. */
  function FirstWithId(db: seq<Workshop>, id: string): (r: Option<nat>)
    ensures r.Some? ==> r.value < |db| && db[r.value].id == id
    ensures r.Some? ==> forall j :: 0 <= j < r.value ==> db[j].id != id
    ensures r.None? <==> forall j :: 0 <= j < |db| ==> db[j].id != id
  {
    if |db| == 0 then None
    else if db[0].id == id then Some(0)
    else
      match FirstWithId(db[1..], id)
      case None => None
      case Some(k) => Some(k + 1)
  }

  // ------------------------------------------------------- scraping a workshop

  /**
   * The workshop a row of the instructor table describes: the listing fields, the location
   * and dates of its session page, and the roster of its participant page. Errors come in
   * the order the source meets them: the row's own fields, the base url, the session page,
   * the participant page address, the roster. The description, credits and fees are absent.
   */
  function WorkshopOfRow(connector: ConnectionTool, text: string, sessionPage: string -> seq<string>,
                         participantPage: string -> seq<string>): (r: Result<Workshop>)
    ensures r.Err? ==> r.error == IndexError || r.error == KeyError
    ensures r.Ok? ==> ("base_workshop_url" in connector.connectionInfo
      && r.value.url == connector.connectionInfo["base_workshop_url"] + r.value.id && |r.value.id| <= 6)
    ensures r.Ok? ==> |sessionPage(r.value.url)| >= 9 && r.value.location == sessionPage(r.value.url)[8]
    ensures r.Ok? ==> (connector.ParticipantPageUrl(r.value.id).Ok?
      && Roster(participantPage(connector.ParticipantPageUrl(r.value.id).value)) == Ok(r.value.participants))
    ensures r.Ok? ==> r.value.description.None? && r.value.credits.None? && r.value.fees.None?
  {
    var base := connector.GetConnectionInfoFor("base_workshop_url");
    var listing := ParseListingRow(text, if base.Ok? then base.value else "");
    if listing.Err? then Err(listing.error)
    else if base.Err? then Err(base.error)
    else
      var l := listing.value;
      var datesAndLocation := DatesAndLocationOf(sessionPage(l.url));
      if datesAndLocation.Err? then Err(datesAndLocation.error)
      else
        var participantUrl := connector.ParticipantPageUrl(l.id);
        if participantUrl.Err? then Err(participantUrl.error)
        else
          var roster := Roster(participantPage(participantUrl.value));
          if roster.Err? then Err(roster.error)
          else
            Ok(Workshop(l.id, l.name, l.start, l.signedUp, l.capacity, l.url, datesAndLocation.value.location,
                        roster.value, datesAndLocation.value.dates, None, None, None))
  }

  /** What each row of the table yields, in row order. */
  function RowResults(connector: ConnectionTool, rows: seq<string>, sessionPage: string -> seq<string>,
                      participantPage: string -> seq<string>): (r: seq<Result<Workshop>>)
    ensures |r| == |rows|
    ensures forall i {:trigger r[i]} :: 0 <= i < |rows| ==> r[i] == WorkshopOfRow(connector, rows[i], sessionPage, participantPage)
  {
    seq(|rows|, i requires 0 <= i < |rows| => WorkshopOfRow(connector, rows[i], sessionPage, participantPage))
  }

  // ---------------------------------------------------------------- the tool

  /** A start that does not parse leaves the date filter undefined. */
  lemma StartMissingFails(toCheck: seq<Workshop>, i: nat, first: Date, last: Date)
    requires i < |toCheck| && ParseDateTime(toCheck[i].startDateAndTime).None?
    ensures DateWindowMatches(toCheck, first, last).None?
  {
    StartsAt(toCheck, i);
    WindowDefined(toCheck, Starts(toCheck), first, last);
  }

  /** A start that parses extends the window of the first `i` workshops by one step. */
  lemma StartKeeps(toCheck: seq<Workshop>, i: nat, first: Date, last: Date, kept: seq<Workshop>, t: DateTime)
    requires i < |toCheck| && ParseDateTime(toCheck[i].startDateAndTime) == Some(t)
    requires Window(toCheck[..i], Starts(toCheck)[..i], first, last) == Some(kept)
    ensures Window(toCheck[..i + 1], Starts(toCheck)[..i + 1], first, last)
      == Some(if InDateWindow(t, first, last) then kept + [toCheck[i]] else kept)
  {
    StartsAt(toCheck, i);
    WindowNext(toCheck, Starts(toCheck), i, first, last, kept);
  }

  /** A workshop inside the window whose count is not an integer leaves no total. */
  lemma KeptCountMissingFails(toCheck: seq<Workshop>, i: nat, first: Date, last: Date, t: DateTime)
    requires i < |toCheck| && ParseDateTime(toCheck[i].startDateAndTime) == Some(t)
    requires InDateWindow(t, first, last) && !IsInt(toCheck[i].signedUp)
    ensures DateWindowMatches(toCheck, first, last).None?
      || SignedUpTotal(DateWindowMatches(toCheck, first, last).value).None?
  {
    StartsAt(toCheck, i);
    WindowUncounted(toCheck, Starts(toCheck), i, first, last);
  }

  /**
   * One round of the date-range loop: the `i`-th workshop's start is read and, when it lies
   * in the window, the workshop is kept and its count added. A start that does not parse or
   * a kept count that is not an integer fails the whole search.
   */
  method KeepStep(toCheck: seq<Workshop>, i: nat, first: Date, last: Date, kept: seq<Workshop>, total: int)
    returns (kept': seq<Workshop>, total': int, failed: bool)
    requires i < |toCheck|
    requires Window(toCheck[..i], Starts(toCheck)[..i], first, last) == Some(kept) && SignedUpTotal(kept) == Some(total)
    ensures failed ==> (DateWindowMatches(toCheck, first, last).None?
      || SignedUpTotal(DateWindowMatches(toCheck, first, last).value).None?)
    ensures !failed ==> (Window(toCheck[..i + 1], Starts(toCheck)[..i + 1], first, last) == Some(kept')
      && SignedUpTotal(kept') == Some(total'))
  {
    var w := toCheck[i];
    var t := ParseDateTime(w.startDateAndTime);
    if t.None? {
      StartMissingFails(toCheck, i, first, last);
      return kept, total, true;
    }
    StartKeeps(toCheck, i, first, last, kept, t.value);
    if !InDateWindow(t.value, first, last) {
      return kept, total, false;
    }
    var n := ParseInt(w.signedUp);
    if n.None? {
      KeptCountMissingFails(toCheck, i, first, last, t.value);
      return kept + [w], total, true;
    }
    SignedUpTotalAdd(kept, w, total, n.value);
    return kept + [w], total + n.value, false;
  }

  /**
   * One round of the phrase loop: the `i`-th workshop is kept when the pattern finds its
   * name, and its count added. A kept count that is not an integer fails the whole search.
   */
  method MatchStep(pattern: string, lowered: string, db: seq<Workshop>, i: nat, found: seq<Workshop>, total: int)
    returns (found': seq<Workshop>, total': int, failed: bool)
    requires Searchable(Lower(pattern)) && lowered == Lower(pattern) && i < |db|
    requires found == PhraseMatches(pattern, db[..i]) && SignedUpTotal(found) == Some(total)
    ensures failed ==> SignedUpTotal(PhraseMatches(pattern, db)).None?
    ensures !failed ==> found' == PhraseMatches(pattern, db[..i + 1]) && SignedUpTotal(found') == Some(total')
  {
    var w := db[i];
    PhraseMatchesStep(pattern, db, i);
    found', total', failed := found, total, false;
    if Search(lowered, Lower(w.name)) {
      var n := ParseInt(w.signedUp);
      if n.None? {
        BadCountMatched(pattern, db, i);
        return found + [w], total, true;
      }
      SignedUpTotalAdd(found, w, total, n.value);
      found', total' := found + [w], total + n.value;
    }
  }

  /**
   * The loop of `get_matching_workshops`: the workshops the pattern finds, in database
   * order, and the sum of their signed-up counts. It fails at the first found workshop whose
   * count is not an integer, which is then the last one in the list it hands back.
   */
  method MatchAndCount(pattern: string, db: seq<Workshop>) returns (found: seq<Workshop>, total: int, failed: bool)
    requires Searchable(Lower(pattern))
    ensures failed <==> SignedUpTotal(PhraseMatches(pattern, db)).None?
    ensures !failed ==> found == PhraseMatches(pattern, db) && SignedUpTotal(found) == Some(total)
  {
    var lowered := Lower(pattern);
    found, total, failed := [], 0, false;
    var i := 0;
    while i < |db|
      invariant 0 <= i <= |db|
      invariant found == PhraseMatches(pattern, db[..i])
      invariant SignedUpTotal(found) == Some(total)
      invariant !failed
    {
      found, total, failed := MatchStep(pattern, lowered, db, i, found, total);
      if failed {
        return;
      }
      i := i + 1;
    }
    PrefixWhole(db);
  }

  /**
   * The loop of `get_matching_workshops_by_date_range`: the workshops whose start lies in
   * the window, in order, and the sum of their signed-up counts. It fails at the first start
   * that does not parse or the first kept count that is not an integer.
   */
  method KeepAndCount(toCheck: seq<Workshop>, first: Date, last: Date) returns (kept: seq<Workshop>, total: int, failed: bool)
    ensures failed <==> (DateWindowMatches(toCheck, first, last).None?
      || SignedUpTotal(DateWindowMatches(toCheck, first, last).value).None?)
    ensures !failed ==> DateWindowMatches(toCheck, first, last) == Some(kept) && SignedUpTotal(kept) == Some(total)
  {
    ghost var starts := Starts(toCheck);
    kept, total, failed := [], 0, false;
    var i := 0;
    while i < |toCheck|
      invariant 0 <= i <= |toCheck|
      invariant Window(toCheck[..i], starts[..i], first, last) == Some(kept)
      invariant SignedUpTotal(kept) == Some(total)
      invariant !failed
    {
      kept, total, failed := KeepStep(toCheck, i, first, last, kept, total);
      if failed {
        return;
      }
      i := i + 1;
    }
    WindowWhole(toCheck, first, last, kept);
  }

  /** The inner loop of `get_emails`: one roster's e-mails appended in roster order. */
  method AppendRosterEmails(emails: seq<string>, roster: seq<Participant>) returns (r: seq<string>)
    ensures r == emails + RosterEmails(roster)
  {
    r := emails;
    for j := 0 to |roster|
      invariant r == emails + RosterEmails(roster[..j])
    {
      RosterEmailsNext(roster, j);
      r := r + [roster[j].email];
    }
    PrefixWhole(roster);
  }

  class WorkshopsTool {
    var numberOfWorkshops: int
    var numberOfParticipants: int
    /** The escaped phrase the next search uses. */
    var searchPhrase: string
    const connector: ConnectionTool
    /** The result of the last search. */
    var searchedWorkshops: seq<Workshop>

    /** A tool with no search done, over a connection made from the given connection information. */
    constructor(connectionInfo: map<string, string>)
      ensures numberOfWorkshops == 0 && numberOfParticipants == 0
      ensures searchPhrase == "" && searchedWorkshops == []
      ensures connector.connectionInfo == connectionInfo
    {
      numberOfWorkshops := 0;
      numberOfParticipants := 0;
      searchPhrase := "";
      connector := new ConnectionTool(connectionInfo);
      searchedWorkshops := [];
    }

    /** Stores the phrase with each of `[]\.^$*+{}|()` escaped, one replacement after another. */
    method SetSearchPhrase(phrase: string)
      modifies this
      ensures searchPhrase == Escape(phrase)
      ensures numberOfWorkshops == old(numberOfWorkshops) && numberOfParticipants == old(numberOfParticipants)
      ensures searchedWorkshops == old(searchedWorkshops)
    {
      var p := phrase;
      for k := 0 to |Symbols|
        invariant EscapeFrom(p, k) == Escape(phrase)
      {
        p := Replace(p, Symbols[k], ['\\', Symbols[k]]);
      }
      searchPhrase := p;
    }

    /**
     * The stored workshops the phrase finds, in database order, with the counters set to
     * their number and to the sum of their signed-up counts. A signed-up count that is not
     * an integer is a ValueError.
     */
    method GetMatchingWorkshops(db: seq<Workshop>) returns (r: Result<seq<Workshop>>)
      requires Searchable(Lower(searchPhrase))
      modifies this
      ensures searchPhrase == old(searchPhrase)
      ensures r.Ok? <==> SignedUpTotal(PhraseMatches(searchPhrase, db)).Some?
      ensures r.Err? ==> r.error == ValueError
      ensures r.Ok? ==> r.value == searchedWorkshops == PhraseMatches(searchPhrase, db)
      ensures r.Ok? ==> numberOfWorkshops == |r.value| && numberOfParticipants == SignedUpTotal(r.value).value
    {
      var found, total, failed := MatchAndCount(searchPhrase, db);
      searchedWorkshops := found;
      numberOfParticipants := total;
      if failed {
        return Err(ValueError);
      }
      numberOfWorkshops := |found|;
      r := Ok(found);
    }

    /**
     * The phrase matches whose start lies between midnight of the first day and midnight of
     * the last day, in order, with both counters recomputed over them. An invalid bound, a
     * start that does not parse or a signed-up count that is not an integer is a ValueError.
     */
    method GetMatchingWorkshopsByDateRange(db: seq<Workshop>, first: Date, last: Date) returns (r: Result<seq<Workshop>>)
      requires Searchable(Lower(searchPhrase))
      modifies this
      ensures searchPhrase == old(searchPhrase)
      ensures r.Ok? <==>
        var matches := PhraseMatches(searchPhrase, db);
        SignedUpTotal(matches).Some? && ValidDate(first) && ValidDate(last)
        && DateWindowMatches(matches, first, last).Some?
        && SignedUpTotal(DateWindowMatches(matches, first, last).value).Some?
      ensures r.Err? ==> r.error == ValueError
      ensures r.Ok? ==> r.value == searchedWorkshops == DateWindowMatches(PhraseMatches(searchPhrase, db), first, last).value
      ensures r.Ok? ==> numberOfWorkshops == |r.value| && numberOfParticipants == SignedUpTotal(r.value).value
    {
      var matching := GetMatchingWorkshops(db);
      if matching.Err? {
        return Err(ValueError);
      }
      var toCheck := matching.value;
      searchedWorkshops := [];
      if !ValidDate(first) || !ValidDate(last) {
        return Err(ValueError);
      }
      r := KeepDateWindow(toCheck, first, last);
    }

    /** The loop of the date-range search over the phrase matches. */
    method KeepDateWindow(toCheck: seq<Workshop>, first: Date, last: Date) returns (r: Result<seq<Workshop>>)
      modifies this
      ensures searchPhrase == old(searchPhrase)
      ensures r.Ok? <==> (DateWindowMatches(toCheck, first, last).Some?
        && SignedUpTotal(DateWindowMatches(toCheck, first, last).value).Some?)
      ensures r.Err? ==> r.error == ValueError
      ensures r.Ok? ==> r.value == searchedWorkshops == DateWindowMatches(toCheck, first, last).value
      ensures r.Ok? ==> numberOfWorkshops == |r.value| && numberOfParticipants == SignedUpTotal(r.value).value
    {
      var kept, total, failed := KeepAndCount(toCheck, first, last);
      searchedWorkshops := kept;
      numberOfParticipants := total;
      if failed {
        return Err(ValueError);
      }
      numberOfWorkshops := |kept|;
      r := Ok(kept);
    }

    /**
     * The first stored workshop with the id, alone, with the workshop counter at 1 and the
     * participant counter at its signed-up count. With no such workshop the counters are 0,
     * the result is empty and returning it is an AttributeError; a signed-up count that is
     * not an integer is a ValueError.
     */
    method GetMatchingWorkshopsById(db: seq<Workshop>, id: string) returns (r: Result<seq<Workshop>>)
      modifies this
      ensures searchPhrase == old(searchPhrase)
      ensures FirstWithId(db, id).None? ==>
        r == Err(AttributeError) && searchedWorkshops == [] && numberOfWorkshops == 0 && numberOfParticipants == 0
      ensures FirstWithId(db, id).Some? && IsInt(db[FirstWithId(db, id).value].signedUp) ==>
        var w := db[FirstWithId(db, id).value];
        r == Ok([w]) && searchedWorkshops == [w]
        && numberOfWorkshops == 1 && numberOfParticipants == ParseInt(w.signedUp).value
      ensures FirstWithId(db, id).Some? && !IsInt(db[FirstWithId(db, id).value].signedUp) ==>
        r == Err(ValueError) && searchedWorkshops == [db[FirstWithId(db, id).value]]
        && numberOfWorkshops == old(numberOfWorkshops) && numberOfParticipants == 0
    {
      searchedWorkshops := [];
      numberOfParticipants := 0;
      var i := 0;
      while i < |db|
        invariant 0 <= i <= |db|
        invariant forall j :: 0 <= j < i ==> db[j].id != id
        invariant searchPhrase == old(searchPhrase) && numberOfWorkshops == old(numberOfWorkshops)
        invariant searchedWorkshops == [] && numberOfParticipants == 0
      {
        if db[i].id == id {
          searchedWorkshops := [db[i]];
          var n := ParseInt(db[i].signedUp);
          if n.None? {
            return Err(ValueError);
          }
          numberOfParticipants := n.value;
          numberOfWorkshops := 1;
          return Ok(searchedWorkshops);
        }
        i := i + 1;
      }
      numberOfWorkshops := 0;
      r := Err(AttributeError);
    }

    /** The e-mail text of the last search: its participants' e-mails, workshop after workshop. */
    method GetEmails() returns (r: string)
      ensures r == EmailText(EmailsOf(Rosters(searchedWorkshops)))
    {
      var rosters := Rosters(searchedWorkshops);
      var emails: seq<string> := [];
      for i := 0 to |rosters|
        invariant emails == EmailsOf(rosters[..i])
      {
        var roster := rosters[i];
        if roster != [] {
          emails := AppendRosterEmails(emails, roster);
        }
        EmailsOfNext(rosters, i);
      }
      PrefixWhole(rosters);
      var joined := Join(emails, EmailSeparator);
      if joined == "" {
        r := NoEmails;
      } else {
        r := joined;
      }
    }

    /** The location and dates of the session page at the address. */
    method GetDatesAndLocation(sessionPage: string -> seq<string>, workshopUrl: string) returns (r: Result<DatesAndLocation>)
      ensures r == DatesAndLocationOf(sessionPage(workshopUrl))
    {
      var content := sessionPage(workshopUrl);
      var filtered := Drop(content, 6);
      if |filtered| < 3 {
        return Err(IndexError);
      }
      var location := filtered[2];
      var dates := "";
      for index := 0 to |filtered|
        invariant dates == DatesText(EveryThird(filtered[..index]))
      {
        DatesTextStep(filtered, index);
        if index % 3 == 0 {
          if dates == "" {
            dates := filtered[index];
          } else {
            dates := dates + "_" + filtered[index];
          }
        }
      }
      assert filtered[..|filtered|] == filtered;
      r := Ok(DatesAndLocation(location, dates));
    }

    /** The participants of the workshop's roster page, in row order. */
    method ConstructParticipantInfo(id: string, participantPage: string -> seq<string>) returns (r: Result<seq<Participant>>)
      ensures connector.ParticipantPageUrl(id).Err? ==> r == Err(KeyError)
      ensures connector.ParticipantPageUrl(id).Ok? ==> r == Roster(participantPage(connector.ParticipantPageUrl(id).value))
    {
      var url := connector.ParticipantPageUrl(id);
      if url.Err? {
        return Err(KeyError);
      }
      var content := participantPage(url.value);
      var items := seq(|content|, i requires 0 <= i < |content| => Drop(Split(content[i], "\n"), 1));
      var participants: seq<Participant> := [];
      for i := 0 to |items|
        invariant Roster(content[..i]) == Ok(participants)
      {
        assert content[..i + 1][..i] == content[..i];
        var item := items[i];
        if |item| > 0 {
          if |item| < 3 {
            assert RosterEntry(content[i]).Err?;
            return Err(IndexError);
          }
          participants := participants + [Participant(item[0], item[1], item[2])];
        }
      }
      assert content[..|content|] == content;
      r := Ok(participants);
    }

    /** The body of the instructor-table loop for one row. */
    method WorkshopFromRow(text: string, sessionPage: string -> seq<string>, participantPage: string -> seq<string>)
      returns (r: Result<Workshop>)
      ensures r == WorkshopOfRow(connector, text, sessionPage, participantPage)
    {
      var base := connector.GetConnectionInfoFor("base_workshop_url");
      var listing := ParseListingRow(text, if base.Ok? then base.value else "");
      if listing.Err? {
        return Err(listing.error);
      }
      if base.Err? {
        return Err(base.error);
      }
      var datesAndLocation := GetDatesAndLocation(sessionPage, listing.value.url);
      if datesAndLocation.Err? {
        return Err(datesAndLocation.error);
      }
      var participants := ConstructParticipantInfo(listing.value.id, participantPage);
      if participants.Err? {
        return Err(participants.error);
      }
      var l := listing.value;
      r := Ok(Workshop(l.id, l.name, l.start, l.signedUp, l.capacity, l.url, datesAndLocation.value.location,
                       participants.value, datesAndLocation.value.dates, None, None, None));
    }

    /**
     * The workshops of the instructor table, header row skipped, each with its session
     * page's location and dates and its roster: what the database is given.
     */
    method SetupWorkshopInformation(tableRows: seq<string>, sessionPage: string -> seq<string>,
                                    participantPage: string -> seq<string>) returns (r: Result<seq<Workshop>>)
      ensures r == Collect(RowResults(connector, Drop(tableRows, 1), sessionPage, participantPage))
    {
      var contents := Drop(tableRows, 1);
      ghost var results := RowResults(connector, contents, sessionPage, participantPage);
      var workshops: seq<Workshop> := [];
      for i := 0 to |contents|
        invariant Collect(results[..i]) == Ok(workshops)
      {
        var workshop := WorkshopFromRow(contents[i], sessionPage, participantPage);
        assert results[i] == workshop;
        if workshop.Err? {
          CollectFirstError(results, i);
          return Err(workshop.error);
        }
        CollectNext(results, i, workshops);
        workshops := workshops + [workshop.value];
      }
      assert results[..|contents|] == results;
      r := Ok(workshops);
    }
  }
}
