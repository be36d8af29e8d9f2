/**
 * The Google Sheets request builder: it remembers the sheets of the spreadsheet it is
 * building and writes the request dictionaries that add, rename and fill them.
 */
module GoogleSheetsTool {
  import opened Wrappers
  import opened SpreadSheetBaseTool

  /** An entry of `current_sheets`: the first sheet's number 0, or the name of a sheet added since. */
  datatype SheetEntry = SheetNumber(number: int) | SheetName(name: string)

  /** What a request asks for, whatever dictionary carries it. */
  datatype Request =
    | AddSheet(sheetId: int, title: string)
    | UpdateSheetProperties(sheet: SheetEntry, title: string, fields: string)
    | UpdateSpreadsheetProperties(spreadsheetTitle: string, fields: string)
    | Values(range: string, values: seq<seq<Cell>>)

  /** A value of a request dictionary: a string, an integer, the rows of a values request, or a nested dictionary. */
  datatype Json = JString(text: string) | JInt(number: int) | JRows(rows: seq<seq<Cell>>) | JObject(fields: map<string, Json>)

  /** How `current_sheets` entries are written as the `sheetId` of a request. */
  function EntryJson(e: SheetEntry): Json
  {
    match e
    case SheetNumber(n) => JInt(n)
    case SheetName(name) => JString(name)
  }

  /** The value reached by following the keys through nested dictionaries. */
  function Path(j: Json, keys: seq<string>): Option<Json>
    decreases |keys|
  {
    if |keys| == 0 then Some(j)
    else if j.JObject? && keys[0] in j.fields then Path(j.fields[keys[0]], keys[1..])
    else None
  }

  function TextAt(j: Json, keys: seq<string>): Option<string>
  {
    match Path(j, keys)
    case Some(JString(t)) => Some(t)
    case _ => None
  }

  function EntryAt(j: Json, keys: seq<string>): Option<SheetEntry>
  {
    match Path(j, keys)
    case Some(JInt(n)) => Some(SheetNumber(n))
    case Some(JString(t)) => Some(SheetName(t))
    case _ => None
  }

  /**
   * What a batch-update reader takes a dictionary to ask for, by its top-level key: `range`
   * for values, `addSheet`, `updateSheetProperties` or `updateSpreadsheetProperties`.
   */
  function RequestOf(j: Json): Option<Request>
  {
    if Path(j, ["range"]).Some? then
      match (TextAt(j, ["range"]), Path(j, ["values"]))
      case (Some(range), Some(JRows(rows))) => Some(Values(range, rows))
      case _ => None
    else if Path(j, ["addSheet"]).Some? then
      match (Path(j, ["addSheet", "properties", "sheetId"]), TextAt(j, ["addSheet", "properties", "title"]))
      case (Some(JInt(id)), Some(title)) => Some(AddSheet(id, title))
      case _ => None
    else if Path(j, ["updateSheetProperties"]).Some? then
      match (EntryAt(j, ["updateSheetProperties", "properties", "sheetId"]),
             TextAt(j, ["updateSheetProperties", "properties", "title"]),
             TextAt(j, ["updateSheetProperties", "fields"]))
      case (Some(sheet), Some(title), Some(fields)) => Some(UpdateSheetProperties(sheet, title, fields))
      case _ => None
    else if Path(j, ["updateSpreadsheetProperties"]).Some? then
      match (TextAt(j, ["updateSpreadsheetProperties", "properties", "title"]),
             TextAt(j, ["updateSpreadsheetProperties", "fields"]))
      case (Some(title), Some(fields)) => Some(UpdateSpreadsheetProperties(title, fields))
      case _ => None
    else None
  }

  /** The position a Python index names in a list of length `n`: from the end when negative. */
  function ListPosition(n: nat, index: int): (r: Option<nat>)
    ensures r.Some? <==> -(n as int) <= index < n
    ensures r.Some? ==> r.value < n && (r.value == index || r.value == n + index)
  {
    if 0 <= index < n then Some(index)
    else if -(n as int) <= index < 0 then Some((n as int + index) as nat)
    else None
  }

  /** Every position of a list is named by exactly two indices, one from each end. */
  lemma ListPositionBothEnds(n: nat, index: int, position: nat)
    requires position < n
    ensures ListPosition(n, index) == Some(position) <==> index == position || index == position as int - n as int
  {
  }

  class GoogleSheetsTool {
    /** The sheets of the spreadsheet, in the order they were added. */
    var currentSheets: seq<SheetEntry>

    /** The first sheet is entry 0 and every later one is a name. */
    predicate Valid()
      reads this
    {
      |currentSheets| > 0 && currentSheets[0] == SheetNumber(0)
      && forall i :: 1 <= i < |currentSheets| ==> currentSheets[i].SheetName?
    }

    /** A spreadsheet with its first sheet only. */
    constructor()
      ensures currentSheets == [SheetNumber(0)]
      ensures Valid()
    {
      currentSheets := [SheetNumber(0)];
    }

    /** Adding a row does nothing. */
    method AddRow(row: seq<Cell>)
      ensures currentSheets == old(currentSheets)
    {
    }

    /** A dictionary asking to fill the range with exactly the rows given. */
    function AddValuesRequest(range: string, rows: seq<seq<Cell>>): (r: Json)
      ensures RequestOf(r) == Some(Values(range, rows))
    {
      JObject(map["range" := JString(range), "values" := JRows(rows)])
    }

    /** A dictionary asking to rename the spreadsheet itself, changing its title only. */
    function ChangeGoogleSheetNameRequest(name: string): (r: Json)
      ensures RequestOf(r) == Some(UpdateSpreadsheetProperties(name, "title"))
    {
      JObject(map["updateSpreadsheetProperties" :=
        JObject(map["properties" := JObject(map["title" := JString(name)]), "fields" := JString("title")])])
    }

    /**
     * A dictionary asking to rename the sheet at the index, counted from the end when
     * negative, which names the sheet by its entry in `current_sheets`; an index outside
     * the list is an IndexError.
     */
    function ChangeSheetNameRequest(sheetIndex: int, newName: string): (r: Result<Json>)
      reads this
      ensures r.Err? <==> ListPosition(|currentSheets|, sheetIndex).None?
      ensures r.Err? ==> r.error == IndexError
      ensures r.Ok? ==> (RequestOf(r.value)
        == Some(UpdateSheetProperties(currentSheets[ListPosition(|currentSheets|, sheetIndex).value], newName, "title")))
    {
      match ListPosition(|currentSheets|, sheetIndex)
      case None => Err(IndexError)
      case Some(i) =>
        Ok(JObject(map["updateSheetProperties" :=
          JObject(map["properties" := JObject(map["sheetId" := EntryJson(currentSheets[i]), "title" := JString(newName)]),
                      "fields" := JString("title")])]))
    }

    /**
     * A dictionary asking to add a sheet with the name, whose id is the number of sheets
     * before it; the name is appended to the sheets, so renaming the new sheet, by its id
     * or as the last one, names it by that name and not by its id.
     */
    method AddSheetRequest(name: string) returns (r: Json)
      requires Valid()
      modifies this
      ensures currentSheets == old(currentSheets) + [SheetName(name)]
      ensures RequestOf(r) == Some(AddSheet(|old(currentSheets)|, name))
      ensures Valid()
      ensures forall newName :: (ChangeSheetNameRequest(|old(currentSheets)|, newName).Ok?
        && RequestOf(ChangeSheetNameRequest(|old(currentSheets)|, newName).value)
           == Some(UpdateSheetProperties(SheetName(name), newName, "title")))
      ensures forall newName :: ChangeSheetNameRequest(-1, newName) == ChangeSheetNameRequest(|old(currentSheets)|, newName)
    {
      var sheetId := |currentSheets|;
      currentSheets := currentSheets + [SheetName(name)];
      r := JObject(map["addSheet" := JObject(map["properties" := JObject(map["sheetId" := JInt(sheetId), "title" := JString(name)])])]);
    }
  }
}
