/**
 * The positional rules that turn scraped page text into workshop fields. Every HTML
 * element is the string of its `.text`; a table row's cells are that text's lines.
 */
module Extract {
  import opened Wrappers
  import opened Strings
  import opened Records

  // ------------------------------------------------------- the workshop table

  /** What one row of the instructor page's workshop table yields. */
  datatype Listing = Listing(id: string, name: string, start: string, signedUp: string, capacity: string, url: string)

  /**
   * One row of the table: the id is the first 6 characters of line 0 and the name what
   * follows index 9 of it, line 1 is the start, line 2 is `"<signed up> / <capacity>"`,
   * and the url is the base url followed by the id. Fewer than three lines, or a line 2
   * without `" / "`, is an IndexError.
   */
  function ParseListingRow(text: string, baseUrl: string): (r: Result<Listing>)
    ensures r.Ok? <==> |Split(text, "\n")| >= 3 && Contains(Split(text, "\n")[2], " / ")
    ensures r.Err? ==> r.error == IndexError
    ensures r.Ok? ==> |r.value.id| <= 6 && r.value.url == baseUrl + r.value.id
  {
    var lines := Split(text, "\n");
    if |lines| < 3 then Err(IndexError)
    else
      var enrollment := Split(lines[2], " / ");
      if |enrollment| < 2 then Err(IndexError)
      else
        var id := Take(lines[0], 6);
        Ok(Listing(id, Drop(lines[0], 9), lines[1], enrollment[0], enrollment[1], baseUrl + id))
  }

  /** The text of a table row as the page shows it: `"123456 - Name\n<start>\n12 / 30"`. */
  function ListingText(id: string, name: string, start: string, signedUp: string, capacity: string): string
  {
    var first, enrollment := id + " - " + name, signedUp + " / " + capacity;
    first + "\n" + start + "\n" + enrollment
  }

  /** Reading a row built from a six-character id and numeric counts gives its fields back. */
  lemma ParseListingText(id: string, name: string, start: string, signedUp: string, capacity: string, baseUrl: string)
    requires |id| == 6 && '\n' !in id && '\n' !in name && '\n' !in start
    requires AllDigits(signedUp) && AllDigits(capacity)
    ensures ParseListingRow(ListingText(id, name, start, signedUp, capacity), baseUrl)
      == Ok(Listing(id, name, start, signedUp, capacity, baseUrl + id))
  {
    var first, enrollment := id + " - " + name, signedUp + " / " + capacity;
    ListingLines(id, name, start, signedUp, capacity);
    EnrollmentParts(signedUp, capacity);
    assert Take(first, 6) == id by {
      assert first[..6] == id;
    }
    assert Drop(first, 9) == name by {
      assert first[9..] == name;
    }
  }

  /** The lines of a row's text. */
  lemma ListingLines(id: string, name: string, start: string, signedUp: string, capacity: string)
    requires '\n' !in id && '\n' !in name && '\n' !in start
    requires AllDigits(signedUp) && AllDigits(capacity)
    ensures Split(ListingText(id, name, start, signedUp, capacity), "\n") == [id + " - " + name, start, signedUp + " / " + capacity]
  {
    var first, enrollment := id + " - " + name, signedUp + " / " + capacity;
    assert '\n' !in first by {
      forall i | 0 <= i < |first| ensures first[i] != '\n' {
        if i >= |id| + 3 { assert first[i] == name[i - |id| - 3]; }
      }
    }
    assert '\n' !in enrollment by {
      forall i | 0 <= i < |enrollment| ensures enrollment[i] != '\n' {
        if i < |signedUp| { assert IsDigit(signedUp[i]); assert enrollment[i] == signedUp[i]; }
        else if i >= |signedUp| + 3 { assert IsDigit(capacity[i - |signedUp| - 3]); assert enrollment[i] == capacity[i - |signedUp| - 3]; }
      }
    }
    SplitThree(ListingText(id, name, start, signedUp, capacity), first, start, enrollment, "\n");
  }

  /** The two counts of a row's last line. */
  lemma EnrollmentParts(signedUp: string, capacity: string)
    requires AllDigits(signedUp) && AllDigits(capacity)
    ensures Split(signedUp + " / " + capacity, " / ") == [signedUp, capacity]
  {
    assert ' ' !in signedUp && ' ' !in capacity by {
      forall i | 0 <= i < |signedUp| ensures signedUp[i] != ' ' { assert IsDigit(signedUp[i]); }
      forall i | 0 <= i < |capacity| ensures capacity[i] != ' ' { assert IsDigit(capacity[i]); }
    }
    NoOccurrenceBefore(signedUp, " / ");
    SplitOnFirst(signedUp, " / ", capacity);
    NoOccurrenceBefore(capacity, " / ");
    SplitNoOccurrence(capacity, " / ");
  }

  // --------------------------------------------------- the session page

  /** The cells at positions 0, 3, 6, ... */
  function EveryThird(cells: seq<string>): seq<string>
  {
    if |cells| == 0 then []
    else EveryThird(cells[..|cells| - 1]) + (if (|cells| - 1) % 3 == 0 then [cells[|cells| - 1]] else [])
  }

  /** Every third cell is picked, starting with the first, and nothing else. */
  lemma {:induction false} EveryThirdCells(cells: seq<string>)
    ensures |EveryThird(cells)| == (|cells| + 2) / 3
    ensures forall k :: 0 <= k < |EveryThird(cells)| ==> EveryThird(cells)[k] == cells[3 * k]
  {
    if |cells| > 0 {
      var init := cells[..|cells| - 1];
      EveryThirdCells(init);
      assert forall k :: 0 <= k < |init| ==> init[k] == cells[k];
    }
  }

  /**
   * The dates text: each text is appended after an `"_"`, except that while the text
   * built so far is empty the next text replaces it.
   */
  function DatesText(texts: seq<string>): string
  {
    if |texts| == 0 then ""
    else
      var sofar := DatesText(texts[..|texts| - 1]);
      if sofar == "" then texts[|texts| - 1] else sofar + "_" + texts[|texts| - 1]
  }

  /** One more cell adds itself to the dates text exactly when its position is a multiple of three. */
  lemma DatesTextStep(cells: seq<string>, index: nat)
    requires index < |cells|
    ensures DatesText(EveryThird(cells[..index + 1])) ==
      var sofar := DatesText(EveryThird(cells[..index]));
      if index % 3 != 0 then sofar else if sofar == "" then cells[index] else sofar + "_" + cells[index]
  {
    assert cells[..index + 1][..index] == cells[..index];
    var picked := EveryThird(cells[..index]);
    if index % 3 == 0 {
      assert EveryThird(cells[..index + 1]) == picked + [cells[index]];
      assert (picked + [cells[index]])[..|picked|] == picked;
    } else {
      assert EveryThird(cells[..index + 1]) == picked;
    }
  }

  /** With no empty text, the dates text is the `"_"` join of the texts. */
  lemma {:induction false} DatesTextIsJoin(texts: seq<string>)
    requires forall i :: 0 <= i < |texts| ==> texts[i] != ""
    ensures DatesText(texts) == Join(texts, "_")
  {
    if |texts| > 1 {
      var init := texts[..|texts| - 1];
      DatesTextIsJoin(init);
      JoinEmpty(init, "_");
      JoinSnoc(init, texts[|texts| - 1], "_");
      assert init + [texts[|texts| - 1]] == texts;
    }
  }

  /** Empty texts before the first non-empty one leave no trace in the dates text. */
  lemma {:induction false} DatesTextLeadingEmpty(texts: seq<string>)
    ensures DatesText([""] + texts) == DatesText(texts)
  {
    if |texts| > 0 {
      var init := texts[..|texts| - 1];
      DatesTextLeadingEmpty(init);
      assert ([""] + texts)[..|texts|] == [""] + init;
    }
  }

  datatype DatesAndLocation = DatesAndLocation(location: string, dates: string)

  /**
   * The session page's cells after the first six: the location is the third of them and
   * the dates are the texts of the ones at positions 0, 3, 6, ... Fewer than three such
   * cells is an IndexError.
   */
  function DatesAndLocationOf(cells: seq<string>): (r: Result<DatesAndLocation>)
    ensures r.Ok? <==> |cells| >= 9
    ensures r.Err? ==> r.error == IndexError
    ensures r.Ok? ==> r.value.location == cells[8]
  {
    var rest := Drop(cells, 6);
    if |rest| < 3 then Err(IndexError)
    else Ok(DatesAndLocation(rest[2], DatesText(EveryThird(rest))))
  }

  /** With no empty date cell, the dates are the cells at 6, 9, 12, ... joined by `"_"`. */
  lemma DatesOfCells(cells: seq<string>)
    requires |cells| >= 9
    requires forall k :: 6 <= k < |cells| && (k - 6) % 3 == 0 ==> cells[k] != ""
    ensures DatesAndLocationOf(cells).value.dates == Join(EveryThird(cells[6..]), "_")
    ensures |EveryThird(cells[6..])| == (|cells| - 4) / 3
  {
    var rest := Drop(cells, 6);
    assert rest == cells[6..];
    var picked := EveryThird(rest);
    EveryThirdCells(rest);
    forall k | 0 <= k < |picked| ensures picked[k] != "" {
      assert picked[k] == cells[6 + 3 * k];
    }
    DatesTextIsJoin(picked);
  }

  // ------------------------------------------------------ the roster page

  /**
   * One roster row: its lines after the first. No line left means no participant; one or
   * two lines left is an IndexError; otherwise the next three lines are name, e-mail and school.
   */
  function RosterEntry(text: string): (r: Result<Option<Participant>>)
    ensures r.Err? ==> r.error == IndexError
    ensures r == Ok(None) <==> '\n' !in text
  {
    var lines := Split(text, "\n");
    assert |lines| == 1 <==> '\n' !in text by {
      SplitCharLength(text, '\n');
      CountAbsentIff(text, '\n');
    }
    var item := Drop(lines, 1);
    if |item| == 0 then Ok(None)
    else if |item| < 3 then Err(IndexError)
    else Ok(Some(Participant(item[0], item[1], item[2])))
  }

  /** The participants of a roster page's rows, in row order; the first failing row decides the error. */
  function Roster(rows: seq<string>): (r: Result<seq<Participant>>)
    ensures r.Ok? <==> forall i :: 0 <= i < |rows| ==> RosterEntry(rows[i]).Ok?
    ensures r.Err? ==> r.error == IndexError
    ensures r.Ok? ==> |r.value| <= |rows|
  {
    if |rows| == 0 then Ok([])
    else
      match Roster(rows[..|rows| - 1])
      case Err(e) => Err(e)
      case Ok(ps) =>
        match RosterEntry(rows[|rows| - 1])
        case Err(e) => Err(e)
        case Ok(None) => Ok(ps)
        case Ok(Some(p)) => Ok(ps + [p])
  }

  /** The text of a roster row as the page shows it: a leading cell, then name, e-mail, school. */
  function RosterText(lead: string, p: Participant): string
  {
    Join([lead, p.name, p.email, p.school], "\n")
  }

  predicate SingleLine(p: Participant)
  {
    '\n' !in p.name && '\n' !in p.email && '\n' !in p.school
  }

  lemma RosterEntryOfText(lead: string, p: Participant)
    requires '\n' !in lead && SingleLine(p)
    ensures RosterEntry(RosterText(lead, p)) == Ok(Some(p))
  {
    var parts := [lead, p.name, p.email, p.school];
    SplitJoinChar(parts, '\n');
    assert Drop(parts, 1) == [p.name, p.email, p.school];
  }

  /** Rows built from participants read back as those participants, in order. */
  lemma {:induction false} RosterOfTexts(rows: seq<string>, leads: seq<string>, ps: seq<Participant>)
    requires |rows| == |leads| == |ps|
    requires forall i :: 0 <= i < |ps| ==> '\n' !in leads[i] && SingleLine(ps[i]) && rows[i] == RosterText(leads[i], ps[i])
    ensures Roster(rows) == Ok(ps)
  {
    if |ps| > 0 {
      var n := |ps| - 1;
      RosterOfTexts(rows[..n], leads[..n], ps[..n]);
      assert RosterEntry(rows[n]) == Ok(Some(ps[n])) by {
        RosterEntryOfText(leads[n], ps[n]);
      }
      SplitLast(ps);
    }
  }
}
