/**
 * The connection tool's bookkeeping: the connection information read from
 * `connection_info.json`, lookups in it, the participant page's address, the login form
 * payload and the credential update written back to the file. The HTTP session is not
 * modelled; what a page holds is given to the operations as values.
 */
module Connection {
  import opened Wrappers

  const UserNameField: string := "ctl00$mainBody$txtUserName"
  const PasswordField: string := "ctl00$mainBody$txtPassword"
  const SubmitField: string := "ctl00$mainBody$btnSubmit"
  const EventValidationField: string := "__EVENTVALIDATION"
  const ViewStateField: string := "__VIEWSTATE"

  /** An HTML `<input>` element, as its attributes. */
  type Attributes = map<string, string>

  class ConnectionTool {
    /** The contents of `connection_info.json`, loaded when the tool is made. */
    const connectionInfo: map<string, string>

    /** The tool over the loaded connection information; the session and the sign-in are not modelled. */
    constructor(info: map<string, string>)
      ensures connectionInfo == info
    {
      connectionInfo := info;
    }

    /** `connection_info[item]`: the stored value, or a KeyError for an absent key. */
    function GetConnectionInfoFor(item: string): (r: Result<string>)
      ensures r.Ok? <==> item in connectionInfo
      ensures r.Ok? ==> r.value == connectionInfo[item]
      ensures r.Err? ==> r.error == KeyError
    {
      if item in connectionInfo then Ok(connectionInfo[item]) else Err(KeyError)
    }

    /** The address `get_participant_page` fetches: the participant page base url followed by the id. */
    function ParticipantPageUrl(id: string): (r: Result<string>)
      ensures r.Ok? <==> "participant_page_base_url" in connectionInfo
      ensures r.Err? ==> r.error == KeyError
      ensures r.Ok? ==> (
        var base := connectionInfo["participant_page_base_url"];
        |r.value| == |base| + |id| && r.value[..|base|] == base && r.value[|base|..] == id)
    {
      match GetConnectionInfoFor("participant_page_base_url")
      case Err(e) => Err(e)
      case Ok(base) => Ok(base + id)
    }

    /**
     * The sign-in form payload. The user name and password come from the connection
     * information, the submit field is `"Submit"`, and each token is the `value` attribute of
     * the first matching hidden input of the sign-in page. Errors come in the order the
     * fields are filled: a missing credential is a KeyError, a missing input an
     * AttributeError, an input without a value a KeyError.
     */
    method SetupLoginInformation(eventValidationInput: Option<Attributes>, viewStateInput: Option<Attributes>)
      returns (r: Result<map<string, string>>)
      ensures r.Ok? <==> (
        "user_name" in connectionInfo && "password" in connectionInfo
        && eventValidationInput.Some? && "value" in eventValidationInput.value
        && viewStateInput.Some? && "value" in viewStateInput.value)
      ensures r.Ok? ==> r.value.Keys == {UserNameField, PasswordField, SubmitField, EventValidationField, ViewStateField}
      ensures r.Ok? ==> (
        r.value[UserNameField] == connectionInfo["user_name"]
        && r.value[PasswordField] == connectionInfo["password"]
        && r.value[SubmitField] == "Submit"
        && r.value[EventValidationField] == eventValidationInput.value["value"]
        && r.value[ViewStateField] == viewStateInput.value["value"])
      ensures "user_name" !in connectionInfo || "password" !in connectionInfo ==> r == Err(KeyError)
      ensures ("user_name" in connectionInfo && "password" in connectionInfo && eventValidationInput.None?)
        ==> r == Err(AttributeError)
      ensures ("user_name" in connectionInfo && "password" in connectionInfo && eventValidationInput.Some?
        && "value" in eventValidationInput.value && viewStateInput.None?) ==> r == Err(AttributeError)
      ensures ("user_name" in connectionInfo && "password" in connectionInfo && eventValidationInput.Some?
        && "value" !in eventValidationInput.value) ==> r == Err(KeyError)
      ensures ("user_name" in connectionInfo && "password" in connectionInfo && eventValidationInput.Some?
        && "value" in eventValidationInput.value && viewStateInput.Some?
        && "value" !in viewStateInput.value) ==> r == Err(KeyError)
      ensures r.Err? ==> r.error == KeyError || r.error == AttributeError
    {
      var userName := GetConnectionInfoFor("user_name");
      if userName.Err? {
        return Err(KeyError);
      }
      var password := GetConnectionInfoFor("password");
      if password.Err? {
        return Err(KeyError);
      }
      var loginData := map[UserNameField := userName.value, PasswordField := password.value, SubmitField := "Submit"];
      if eventValidationInput.None? {
        return Err(AttributeError);
      }
      if "value" !in eventValidationInput.value {
        return Err(KeyError);
      }
      loginData := loginData[EventValidationField := eventValidationInput.value["value"]];
      if viewStateInput.None? {
        return Err(AttributeError);
      }
      if "value" !in viewStateInput.value {
        return Err(KeyError);
      }
      loginData := loginData[ViewStateField := viewStateInput.value["value"]];
      return Ok(loginData);
    }
  }

  /**
   * The stored connection information after new credentials are written: `user_name` and
   * `password` take the new values and every other entry is kept. The tool's own loaded
   * copy is not changed.
   */
  function StoreUserInfo(stored: map<string, string>, userName: string, password: string): (r: map<string, string>)
    ensures r.Keys == stored.Keys + {"user_name", "password"}
    ensures r["user_name"] == userName && r["password"] == password
    ensures forall k :: k in stored && k != "user_name" && k != "password" ==> r[k] == stored[k]
  {
    stored["user_name" := userName]["password" := password]
  }
}
