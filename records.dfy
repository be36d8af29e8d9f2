/**
 * The records the workshop code passes around: a participant, a workshop as the newer
 * tool stores it (a dictionary keyed by field name), a workshop as the older tool reads
 * it back from its table (a positional row with the participant list appended), and the
 * e-mail text both tools build from a list of workshops.
 */
module Records {
  import opened Wrappers
  import opened Strings

  /** One roster entry: `{name, email, school}`, or `(name, email, school)` as a row. */
  datatype Participant = Participant(name: string, email: string, school: string)

  /**
   * A workshop dictionary: `workshop_id`, `workshop_name`, `workshop_start_date_and_time`,
   * `workshop_signed_up`, `workshop_participant_capacity`, `workshop_url`,
   * `workshop_location`, `workshop_participant_info_list`, `workshop_dates`, and the
   * `workshop_description`, `workshop_credits` and `workshop_fees` the spreadsheet reads;
   * `None` stands for a key the dictionary does not have.
   */
  datatype Workshop = Workshop(
    id: string,
    name: string,
    startDateAndTime: string,
    signedUp: string,
    capacity: string,
    url: string,
    location: string,
    participants: seq<Participant>,
    dates: string,
    description: Option<string>,
    credits: Option<string>,
    fees: Option<string>)

  /**
   * A table row `[key, workshopID, workshopName, workshopStartDateAndTime, workshopSignedUp,
   * workshopParticipantCapacity, workshopURL]` with its participant list appended as `[7]`.
   */
  datatype Row = Row(
    key: int,
    id: string,
    name: string,
    start: string,
    signedUp: string,
    capacity: string,
    url: string,
    participants: seq<Participant>)

  // -------------------------------------------------------------- e-mails

  /** What both tools print when the joined e-mails are the empty string. */
  const NoEmails: string := "*** NO EMAILS TO DISPLAY! ***"

  const EmailSeparator: string := ";\n"

  /** The e-mails of a roster, in roster order. */
  function RosterEmails(ps: seq<Participant>): (r: seq<string>)
    ensures |r| == |ps| && forall i :: 0 <= i < |ps| ==> r[i] == ps[i].email
  {
    seq(|ps|, i requires 0 <= i < |ps| => ps[i].email)
  }

  /** The e-mails of several rosters: roster after roster, each in roster order. */
  function EmailsOf(rosters: seq<seq<Participant>>): seq<string>
  {
    if |rosters| == 0 then [] else EmailsOf(rosters[..|rosters| - 1]) + RosterEmails(rosters[|rosters| - 1])
  }

  lemma RosterEmailsNext(ps: seq<Participant>, j: nat)
    requires j < |ps|
    ensures RosterEmails(ps[..j + 1]) == RosterEmails(ps[..j]) + [ps[j].email]
  {
  }

  lemma EmailsOfNext(rosters: seq<seq<Participant>>, i: nat)
    requires i < |rosters|
    ensures EmailsOf(rosters[..i + 1]) == EmailsOf(rosters[..i]) + RosterEmails(rosters[i])
  {
    assert rosters[..i + 1][..i] == rosters[..i];
  }

  /** The roster `rosterOf` reads from each record, in order. */
  function RostersBy<T>(records: seq<T>, rosterOf: T -> seq<Participant>): (r: seq<seq<Participant>>)
    ensures |r| == |records| && forall i :: 0 <= i < |records| ==> r[i] == rosterOf(records[i])
  {
    seq(|records|, i requires 0 <= i < |records| => rosterOf(records[i]))
  }

  /** The rosters of a list of workshop dictionaries, `workshop["workshop_participant_info_list"]`. */
  function Rosters(ws: seq<Workshop>): (r: seq<seq<Participant>>)
    ensures |r| == |ws| && forall i :: 0 <= i < |ws| ==> r[i] == ws[i].participants
  {
    RostersBy(ws, (w: Workshop) => w.participants)
  }

  /** The rosters of a list of positional table rows, `workshop[7]` of each. */
  function RowRosters(rows: seq<Row>): (r: seq<seq<Participant>>)
    ensures |r| == |rows| && forall i :: 0 <= i < |rows| ==> r[i] == rows[i].participants
  {
    RostersBy(rows, (row: Row) => row.participants)
  }

  /** `";\n".join(emails)`, or the no-e-mails text when that join is the empty string. */
  function EmailText(emails: seq<string>): string
  {
    var joined := Join(emails, EmailSeparator);
    if joined == "" then NoEmails else joined
  }

  /** There are as many e-mails as participants, counted roster by roster. */
  lemma {:induction false} EmailsOfLength(rosters: seq<seq<Participant>>)
    ensures |EmailsOf(rosters)| == ParticipantCount(rosters)
  {
    if |rosters| > 0 {
      EmailsOfLength(rosters[..|rosters| - 1]);
    }
  }

  function ParticipantCount(rosters: seq<seq<Participant>>): nat
  {
    if |rosters| == 0 then 0 else ParticipantCount(rosters[..|rosters| - 1]) + |rosters[|rosters| - 1]|
  }

  /** Every participant's e-mail is among the collected e-mails. */
  lemma {:induction false} EmailsOfHas(rosters: seq<seq<Participant>>, i: nat, j: nat)
    requires i < |rosters| && j < |rosters[i]|
    ensures rosters[i][j].email in EmailsOf(rosters)
  {
    var last := |rosters| - 1;
    if i == last {
      assert RosterEmails(rosters[last])[j] == rosters[i][j].email;
    } else {
      EmailsOfHas(rosters[..last], i, j);
    }
  }

  /**
   * The e-mail text is never empty. It is the no-e-mails text when there is no e-mail or
   * one empty e-mail; otherwise it is the `";\n"` join, in which every e-mail occurs.
   */
  lemma EmailTextCases(emails: seq<string>)
    ensures EmailText(emails) != ""
    ensures |emails| == 0 || (|emails| == 1 && emails[0] == "") ==> EmailText(emails) == NoEmails
    ensures !(|emails| == 0 || (|emails| == 1 && emails[0] == "")) ==>
      EmailText(emails) == Join(emails, EmailSeparator)
      && forall i :: 0 <= i < |emails| ==> Contains(EmailText(emails), emails[i])
  {
    JoinEmpty(emails, EmailSeparator);
    forall i | 0 <= i < |emails| ensures Contains(Join(emails, EmailSeparator), emails[i]) {
      JoinContainsPart(emails, EmailSeparator, i);
    }
  }
}
