/**
 * The fixed texts the programs write to the output field after an attempt to update the
 * database, and the ways such an attempt ends.
 */
module Messages {
  import opened Strings

  /** How `setup_workshop_information` ended: normally, or by raising an exception. */
  datatype UpdateOutcome = Updated | Raised(error: UpdateError)

  /**
   * The exception an update raised. The two `ConnectionError` classes are unrelated: the one
   * of the `requests` library derives from `IOError`, not from Python's own, so a handler
   * naming one of them does not catch the other.
   */
  datatype UpdateError =
    | RequestsConnectionError      // `requests.exceptions.ConnectionError`: the server cannot be reached
    | BuiltinConnectionError       // Python's own `ConnectionError`
    | BadServerReply               // TypeError, from a reply that lacks what is expected
    | MissingFile(message: string) // FileNotFoundError, with the text `str(e)` gives
    | Unhandled                    // anything else: it leaves every update handler

  /** Two outcomes of the same kind: equal, or two missing files, whatever their names. */
  predicate SameCase(a: UpdateOutcome, b: UpdateOutcome)
  {
    a == b || (a.Raised? && b.Raised? && a.error.MissingFile? && b.error.MissingFile?)
  }

  /** The lines shown after a successful update; the second one is empty. */
  const WelcomeLines: seq<string> := [
    "Your database has been updated!",
    "",
    "This program will allow you to seach current workshops using a phrase, date range, or Session ID.",
    "Type a phrase that you would like to search in the \"Phrase:\" field.",
    "Leave the \"Phrase:\" field blank to get all current workshops.",
    "The Session ID search will take priority over phrase and date range search."]

  /** The lines shown when the server cannot be reached. */
  const OfflineLines: seq<string> := [
    "Cannot connect to server...",
    "You are in offline mode.",
    "You can access workshops from the last time your last successful connection.",
    "You can try to update your database when you have established an internet connection."]

  // The two texts below are written as a short head and the rest, so that their first
  // letters, which tell the messages apart, are evident to the verifier.

  const ServerErrorText: string := "Something " + "went wrong when connecting to server...\nTry again later."

  const MissingFileText: string := "Missing " + "\"connection_info.json\". Cannot update database."

  /** The welcome text starts with its first line's `Y`. */
  function WelcomeText(): (r: string)
    ensures |r| > 0 && r[0] == 'Y'
  {
    JoinHead(WelcomeLines, "\n");
    Join(WelcomeLines, "\n")
  }

  /** The offline text starts with its first line's `C`. */
  function OfflineText(): (r: string)
    ensures |r| > 0 && r[0] == 'C'
  {
    JoinHead(OfflineLines, "\n");
    Join(OfflineLines, "\n")
  }
}
