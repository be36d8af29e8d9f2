/**
 * The text the workshop programs print after a search: the two count lines, the optional
 * detail block of each workshop (the checked fields, then the checked contact fields of
 * each participant), and the e-mail section. The programs build it as a list of pieces
 * and print their concatenation; the functions here give that list.
 */
module Layout {
  import opened Wrappers
  import opened Strings
  import opened Records

  /** Which search the window's fields select. */
  datatype SearchKind = ById | ByDateRange | ByPhrase

  /** A non-empty id field wins over a checked date box, which wins over the phrase alone. */
  function SelectedSearch(idText: string, useDate: bool): (k: SearchKind)
    ensures k == ById <==> idText != ""
    ensures k == ByDateRange <==> idText == "" && useDate
    ensures k == ByPhrase <==> idText == "" && !useDate
  {
    if idText != "" then ById else if useDate then ByDateRange else ByPhrase
  }

  /** The states of the window's check boxes: five workshop fields and three contact fields. */
  datatype Checks = Checks(
    id: bool, startDate: bool, partNumbers: bool, name: bool, url: bool,
    names: bool, emails: bool, schools: bool)

  /** What the layout shows of a workshop, however the workshop is stored. */
  datatype View = View(
    id: string, start: string, signedUp: string, capacity: string, name: string, url: string,
    participants: seq<Participant>)

  /** A workshop dictionary's fields. */
  function ViewOfWorkshop(w: Workshop): View
  {
    View(w.id, w.startDateAndTime, w.signedUp, w.capacity, w.name, w.url, w.participants)
  }

  /** A table row's fields: `[1]`, `[3]`, `[4]`, `[5]`, `[2]`, `[6]` and the participants `[7]`. */
  function ViewOfRow(row: Row): View
  {
    View(row.id, row.start, row.signedUp, row.capacity, row.name, row.url, row.participants)
  }

  function ViewsOfWorkshops(ws: seq<Workshop>): (r: seq<View>)
    ensures |r| == |ws| && forall i :: 0 <= i < |ws| ==> r[i] == ViewOfWorkshop(ws[i])
  {
    seq(|ws|, i requires 0 <= i < |ws| => ViewOfWorkshop(ws[i]))
  }

  function ViewsOfRows(rows: seq<Row>): (r: seq<View>)
    ensures |r| == |rows| && forall i :: 0 <= i < |rows| ==> r[i] == ViewOfRow(rows[i])
  {
    seq(|rows|, i requires 0 <= i < |rows| => ViewOfRow(rows[i]))
  }

  /** A table row holding a workshop dictionary's fields, whatever its key. */
  predicate StoresWorkshop(row: Row, w: Workshop)
  {
    row.id == w.id && row.name == w.name && row.start == w.startDateAndTime && row.signedUp == w.signedUp
    && row.capacity == w.capacity && row.url == w.url && row.participants == w.participants
  }

  /**
   * Read by position, a table row shows what the workshop dictionary with the same fields
   * shows, and only that: row by row, the older programs' layout of the rows is the newer
   * one's of the dictionaries.
   */
  lemma RowViewsMatchWorkshops(rows: seq<Row>, ws: seq<Workshop>)
    requires |rows| == |ws|
    ensures ViewsOfRows(rows) == ViewsOfWorkshops(ws) <==> forall i :: 0 <= i < |rows| ==> StoresWorkshop(rows[i], ws[i])
  {
    if forall i :: 0 <= i < |rows| ==> StoresWorkshop(rows[i], ws[i]) {
      assert forall i :: 0 <= i < |rows| ==> ViewsOfRows(rows)[i] == ViewsOfWorkshops(ws)[i];
    } else {
      var i :| 0 <= i < |rows| && !StoresWorkshop(rows[i], ws[i]);
      assert ViewsOfRows(rows)[i] != ViewsOfWorkshops(ws)[i];
    }
  }

  // ------------------------------------------------------------- selecting

  /** The items whose flag is set, in order. */
  function Select<T>(flags: seq<bool>, items: seq<T>): (r: seq<T>)
    requires |flags| == |items|
    ensures |r| <= |items|
  {
    if |items| == 0 then []
    else Select(flags[..|items| - 1], items[..|items| - 1]) + if flags[|items| - 1] then [items[|items| - 1]] else []
  }

  /** The number of flags set. */
  function Checked(flags: seq<bool>): nat
  {
    if |flags| == 0 then 0 else Checked(flags[..|flags| - 1]) + if flags[|flags| - 1] then 1 else 0
  }

  /** Taking one more item selects it exactly when its flag is set. */
  lemma SelectStep<T>(flags: seq<bool>, items: seq<T>, k: nat)
    requires |flags| == |items| && k < |items|
    ensures Select(flags[..k + 1], items[..k + 1]) == Select(flags[..k], items[..k]) + if flags[k] then [items[k]] else []
  {
    assert flags[..k + 1][..k] == flags[..k];
    assert items[..k + 1][..k] == items[..k];
  }

  /** Selecting from three items is checking each in turn. */
  lemma SelectThree<T>(f0: bool, f1: bool, f2: bool, x0: T, x1: T, x2: T)
    ensures Select([f0, f1, f2], [x0, x1, x2])
      == (if f0 then [x0] else []) + (if f1 then [x1] else []) + (if f2 then [x2] else [])
  {
    var flags, items := [f0, f1, f2], [x0, x1, x2];
    SelectStep(flags, items, 0);
    var s1 := if f0 then [x0] else [];
    assert Select(flags[..1], items[..1]) == s1;
    SelectStep(flags, items, 1);
    var s2 := s1 + if f1 then [x1] else [];
    assert Select(flags[..2], items[..2]) == s2;
    SelectStep(flags, items, 2);
    PrefixWhole(flags);
    PrefixWhole(items);
  }

  /** Selecting from five items is checking each in turn. */
  lemma SelectFive<T>(f0: bool, f1: bool, f2: bool, f3: bool, f4: bool, x0: T, x1: T, x2: T, x3: T, x4: T)
    ensures Select([f0, f1, f2, f3, f4], [x0, x1, x2, x3, x4])
      == (if f0 then [x0] else []) + (if f1 then [x1] else []) + (if f2 then [x2] else [])
         + (if f3 then [x3] else []) + (if f4 then [x4] else [])
  {
    var flags, items := [f0, f1, f2, f3, f4], [x0, x1, x2, x3, x4];
    SelectStep(flags, items, 0);
    var s1 := if f0 then [x0] else [];
    assert Select(flags[..1], items[..1]) == s1;
    SelectStep(flags, items, 1);
    var s2 := s1 + if f1 then [x1] else [];
    assert Select(flags[..2], items[..2]) == s2;
    SelectStep(flags, items, 2);
    var s3 := s2 + if f2 then [x2] else [];
    assert Select(flags[..3], items[..3]) == s3;
    SelectStep(flags, items, 3);
    var s4 := s3 + if f3 then [x3] else [];
    assert Select(flags[..4], items[..4]) == s4;
    SelectStep(flags, items, 4);
    PrefixWhole(flags);
    PrefixWhole(items);
  }

  /** One item is selected for every flag set, and all of them when every flag is set. */
  lemma {:induction false} SelectCount<T>(flags: seq<bool>, items: seq<T>)
    requires |flags| == |items|
    ensures |Select(flags, items)| == Checked(flags)
    ensures (forall i :: 0 <= i < |flags| ==> flags[i]) ==> Select(flags, items) == items
    ensures (forall i :: 0 <= i < |flags| ==> !flags[i]) ==> Select(flags, items) == []
  {
    if |items| > 0 {
      var n := |items| - 1;
      SelectCount(flags[..n], items[..n]);
      assert forall i :: 0 <= i < n ==> flags[..n][i] == flags[i];
      assert items[..n] + [items[n]] == items;
    }
  }

  /** Every selected item is one of the items with its flag set. */
  lemma {:induction false} SelectMembers<T>(flags: seq<bool>, items: seq<T>)
    requires |flags| == |items|
    ensures forall s :: s in Select(flags, items) ==> exists i :: 0 <= i < |items| && flags[i] && items[i] == s
  {
    if |items| > 0 {
      var n := |items| - 1;
      SelectMembers(flags[..n], items[..n]);
      assert forall i :: 0 <= i < n ==> flags[..n][i] == flags[i] && items[..n][i] == items[i];
    }
  }

  // ---------------------------------------------------------------- fields

  /** The five workshop fields in display order: id, start, `"signed/capacity"`, name, url line. */
  function WorkshopItems(v: View): seq<string>
  {
    [v.id, v.start, v.signedUp + "/" + v.capacity, v.name, "\n   Url: " + v.url]
  }

  function WorkshopFlags(c: Checks): seq<bool>
  {
    [c.id, c.startDate, c.partNumbers, c.name, c.url]
  }

  /** The checked workshop fields, one box after the other. */
  function WorkshopFields(c: Checks, v: View): seq<string>
  {
    (if c.id then [v.id] else []) + (if c.startDate then [v.start] else [])
    + (if c.partNumbers then [v.signedUp + "/" + v.capacity] else [])
    + (if c.name then [v.name] else []) + (if c.url then ["\n   Url: " + v.url] else [])
  }

  /** The workshop fields shown are exactly the checked ones, in the fixed display order. */
  lemma WorkshopFieldsSelect(c: Checks, v: View)
    ensures WorkshopFields(c, v) == Select(WorkshopFlags(c), WorkshopItems(v))
  {
    SelectFive(c.id, c.startDate, c.partNumbers, c.name, c.url,
               v.id, v.start, v.signedUp + "/" + v.capacity, v.name, "\n   Url: " + v.url);
  }

  /** The contact fields in display order: name, e-mail, school. */
  function ParticipantItems(p: Participant): seq<string>
  {
    [p.name, p.email, p.school]
  }

  function ContactFlags(c: Checks): seq<bool>
  {
    [c.names, c.emails, c.schools]
  }

  /** The checked contact fields, one box after the other. */
  function ParticipantFields(c: Checks, p: Participant): seq<string>
  {
    (if c.names then [p.name] else []) + (if c.emails then [p.email] else []) + (if c.schools then [p.school] else [])
  }

  /** The contact fields shown are exactly the checked ones, in the fixed display order. */
  lemma ParticipantFieldsSelect(c: Checks, p: Participant)
    ensures ParticipantFields(c, p) == Select(ContactFlags(c), ParticipantItems(p))
  {
    SelectThree(c.names, c.emails, c.schools, p.name, p.email, p.school);
  }

  /** Whether any workshop field is checked: the condition for the detail block. */
  predicate DetailsChecked(c: Checks)
  {
    c.id || c.startDate || c.partNumbers || c.name || c.url
  }

  /** Whether any contact field is checked: the condition for the contact block. */
  predicate ContactsChecked(c: Checks)
  {
    c.names || c.emails || c.schools
  }

  /** The detail block is asked for exactly when a workshop's line would show some field. */
  lemma DetailsCheckedShowsFields(c: Checks, v: View)
    ensures DetailsChecked(c) <==> |WorkshopFields(c, v)| > 0
  {
    var flags, items := WorkshopFlags(c), WorkshopItems(v);
    WorkshopFieldsSelect(c, v);
    SelectEmpty(flags, items);
    if DetailsChecked(c) {
      var k := if c.id then 0 else if c.startDate then 1 else if c.partNumbers then 2 else if c.name then 3 else 4;
      assert flags[k];
    } else {
      forall i | 0 <= i < |flags|
        ensures !flags[i]
      {
        assert i == 0 || i == 1 || i == 2 || i == 3 || i == 4;
      }
    }
  }

  /** Nothing is selected exactly when no flag is set. */
  lemma {:induction false} SelectEmpty<T>(flags: seq<bool>, items: seq<T>)
    requires |flags| == |items|
    ensures |Select(flags, items)| == 0 <==> forall i :: 0 <= i < |flags| ==> !flags[i]
  {
    if |items| > 0 {
      var n := |items| - 1;
      SelectEmpty(flags[..n], items[..n]);
      assert forall i :: 0 <= i < n ==> flags[..n][i] == flags[i];
    }
  }

  // ---------------------------------------------------------------- pieces

  /** The pieces of one participant's line. */
  function ParticipantPieces(c: Checks, p: Participant): seq<string>
  {
    ["    + ", Join(ParticipantFields(c, p), " - "), "\n"]
  }

  /** The pieces of the participants' lines, participant after participant. */
  function ContactPieces(c: Checks, ps: seq<Participant>): (r: seq<string>)
    ensures |r| == 3 * |ps|
  {
    if |ps| == 0 then []
    else ContactPieces(c, ps[..|ps| - 1]) + ParticipantPieces(c, ps[|ps| - 1])
  }

  /**
   * The pieces of one workshop's block: its line of checked fields joined by `" - "`, a
   * newline, the contact heading and one line per participant when a contact field is
   * checked, and a closing newline.
   */
  function WorkshopPieces(c: Checks, v: View): seq<string>
  {
    [Join(WorkshopFields(c, v), " - "), "\n"]
    + (if ContactsChecked(c) then ["   Contact Information:\n"] + ContactPieces(c, v.participants) else [])
    + ["\n"]
  }

  /** The blocks' pieces, block after block. */
  function Flatten(blocks: seq<seq<string>>): seq<string>
  {
    if |blocks| == 0 then [] else Flatten(blocks[..|blocks| - 1]) + blocks[|blocks| - 1]
  }

  lemma {:induction false} FlattenAppend(a: seq<seq<string>>, b: seq<seq<string>>)
    ensures Flatten(a + b) == Flatten(a) + Flatten(b)
  {
    if |b| == 0 {
      assert a + b == a;
    } else {
      var n := |b| - 1;
      FlattenAppend(a, b[..n]);
      assert (a + b)[..|a + b| - 1] == a + b[..n];
    }
  }

  /** Each workshop's block of pieces. */
  function Blocks(c: Checks, vs: seq<View>): (r: seq<seq<string>>)
    ensures |r| == |vs|
  {
    seq(|vs|, i requires 0 <= i < |vs| => WorkshopPieces(c, vs[i]))
  }

  /** The pieces of the detail block, workshop after workshop. */
  function DetailPieces(c: Checks, vs: seq<View>): seq<string>
  {
    Flatten(Blocks(c, vs))
  }

  /** The detail block of two runs of workshops is the first's followed by the second's. */
  lemma DetailPiecesAppend(c: Checks, a: seq<View>, b: seq<View>)
    ensures DetailPieces(c, a + b) == DetailPieces(c, a) + DetailPieces(c, b)
  {
    assert Blocks(c, a + b) == Blocks(c, a) + Blocks(c, b);
    FlattenAppend(Blocks(c, a), Blocks(c, b));
  }

  /** One more workshop adds its block at the end. */
  lemma DetailPiecesSnoc(c: Checks, vs: seq<View>, i: nat)
    requires i < |vs|
    ensures DetailPieces(c, vs[..i + 1]) == DetailPieces(c, vs[..i]) + WorkshopPieces(c, vs[i])
  {
    assert Blocks(c, vs[..i + 1])[..i] == Blocks(c, vs[..i]);
  }

  /** One more participant adds its line at the end. */
  lemma ContactPiecesSnoc(c: Checks, ps: seq<Participant>, j: nat)
    requires j < |ps|
    ensures ContactPieces(c, ps[..j + 1]) == ContactPieces(c, ps[..j]) + ParticipantPieces(c, ps[j])
  {
    assert ps[..j + 1][..j] == ps[..j];
  }

  /** One participant's checked fields, appended one box after the other. */
  method ParticipantLine(c: Checks, p: Participant) returns (text: seq<string>)
    ensures text == Select(ContactFlags(c), ParticipantItems(p))
  {
    text := AppendIfChecked([], c.names, p.name);
    text := AppendIfChecked(text, c.emails, p.email);
    text := AppendIfChecked(text, c.schools, p.school);
    EmptyPrefix(if c.names then [p.name] else []);
    ParticipantFieldsSelect(c, p);
  }

  /** One workshop's checked fields, appended one box after the other. */
  method WorkshopLine(c: Checks, v: View) returns (text: seq<string>)
    ensures text == Select(WorkshopFlags(c), WorkshopItems(v))
  {
    text := AppendIfChecked([], c.id, v.id);
    text := AppendIfChecked(text, c.startDate, v.start);
    text := AppendIfChecked(text, c.partNumbers, v.signedUp + "/" + v.capacity);
    text := AppendIfChecked(text, c.name, v.name);
    text := AppendIfChecked(text, c.url, "\n   Url: " + v.url);
    EmptyPrefix(if c.id then [v.id] else []);
    WorkshopFieldsSelect(c, v);
  }

  /** `if box.isChecked(): text.append(field)`. */
  method AppendIfChecked(text: seq<string>, checked: bool, field: string) returns (r: seq<string>)
    ensures r == text + if checked then [field] else []
  {
    r := text;
    if checked {
      r := r + [field];
    }
  }

  lemma EmptyPrefix<T>(s: seq<T>)
    ensures [] + s == s
  {
  }

  /** The participants' lines, appended one participant at a time with its checked fields. */
  method AppendContacts(c: Checks, displayText: seq<string>, ps: seq<Participant>) returns (r: seq<string>)
    ensures r == displayText + ContactPieces(c, ps)
  {
    r := displayText;
    for j := 0 to |ps|
      invariant r == displayText + ContactPieces(c, ps[..j])
    {
      var text := ParticipantLine(c, ps[j]);
      ParticipantFieldsSelect(c, ps[j]);
      ContactPiecesSnoc(c, ps, j);
      r := r + ["    + ", Join(text, " - "), "\n"];
    }
    assert ps[..|ps|] == ps;
  }

  /**
   * The detail block, appended one workshop at a time: the line of its checked fields,
   * a newline, the contact lines when a contact field is checked, and a closing newline.
   */
  method AppendDetails(c: Checks, displayText: seq<string>, vs: seq<View>) returns (r: seq<string>)
    ensures r == displayText + DetailPieces(c, vs)
  {
    r := displayText;
    for i := 0 to |vs|
      invariant r == displayText + DetailPieces(c, vs[..i])
    {
      var v := vs[i];
      var text := WorkshopLine(c, v);
      WorkshopFieldsSelect(c, v);
      var contacts: seq<string> := [];
      if c.names || c.emails || c.schools {
        contacts := AppendContacts(c, ["   Contact Information:\n"], v.participants);
      }
      r := r + ([Join(text, " - "), "\n"] + contacts + ["\n"]);
      DetailPiecesSnoc(c, vs, i);
    }
    assert vs[..|vs|] == vs;
  }

  const MatchingHeading: string := "Number of matching workshops: "
  const SignedUpHeading: string := "Total Signed Up: "
  const EmailsHeading: string := "All emails for these workshops:\n\n"

  /** The two count lines, each followed by an empty line. */
  function CountPieces(numberOfWorkshops: int, numberOfParticipants: int): seq<string>
  {
    [MatchingHeading + IntToString(numberOfWorkshops) + "\n\n", SignedUpHeading + IntToString(numberOfParticipants) + "\n\n"]
  }

  /** The pieces of the whole text: the counts, the detail block when asked for, the e-mails. */
  function DisplayPieces(numberOfWorkshops: int, numberOfParticipants: int, detail: bool, c: Checks,
                         vs: seq<View>, emails: string): seq<string>
  {
    CountPieces(numberOfWorkshops, numberOfParticipants)
    + (if detail then DetailPieces(c, vs) else [])
    + [EmailsHeading + emails]
  }

  /**
   * The printed text starts with the two count lines and ends with the e-mail section; in
   * between is the detail block when it is asked for, and nothing otherwise.
   */
  lemma DisplayTextShape(numberOfWorkshops: int, numberOfParticipants: int, detail: bool, c: Checks,
                         vs: seq<View>, emails: string)
    ensures Concat(DisplayPieces(numberOfWorkshops, numberOfParticipants, detail, c, vs, emails))
      == (MatchingHeading + IntToString(numberOfWorkshops) + "\n\n")
         + (SignedUpHeading + IntToString(numberOfParticipants) + "\n\n")
         + Concat(if detail then DetailPieces(c, vs) else [])
         + (EmailsHeading + emails)
  {
    var counts := CountPieces(numberOfWorkshops, numberOfParticipants);
    ConcatAround(counts[0], counts[1], if detail then DetailPieces(c, vs) else [], EmailsHeading + emails);
  }

  /** Concatenating two pieces, a run of pieces and one more piece. */
  lemma ConcatAround(x: string, y: string, middle: seq<string>, z: string)
    ensures Concat([x, y] + middle + [z]) == x + y + Concat(middle) + z
  {
    ConcatAppend([x, y] + middle, [z]);
    ConcatAppend([x, y], middle);
    ConcatTwo(x, y);
    ConcatOne(z);
  }

  lemma ConcatOne(x: string)
    ensures Concat([x]) == x
  {
    assert [x][1..] == [];
  }

  lemma ConcatTwo(x: string, y: string)
    ensures Concat([x, y]) == x + y
  {
    assert [x, y][1..] == [y];
    ConcatOne(y);
  }
}
