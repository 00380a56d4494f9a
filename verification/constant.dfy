/** The fixed data of `constant.py`: the settings document with its defaults,
    the request-body template for a new user, and the in-memory settings
    dictionary that commands mutate and `save_settings` writes back. */
module Constant {

  /** The settings document: the active profile's name, the two API base URLs
      and the headers sent with every request. */
  datatype Settings = Settings(
    activatedCredentials: string,
    apiBase: string,
    adminBase: string,
    headers: map<string, string>)

  /** `SETTINGS_INIT_DICT`, written when no settings file exists yet. */
  const SettingsInit := Settings(
    "default",
    "https://api.veracode.com/appsec/v1",
    "https://api.veracode.com/api/authn/v2",
    map["User-Agent" := "Python HMAC"])

  /** The body of a user-creation request; each role is a `{'role_name': ...}`
      object in the JSON and is kept here by its name. */
  datatype UserCreationBody = UserCreationBody(
    emailAddress: string,
    userName: string,
    firstName: string,
    lastName: string,
    ipRestricted: bool,
    active: bool,
    userType: string,
    roles: seq<string>)

  /** The roles every new user gets (the entries of `USER_CREATION_INPUT` that
      are not commented out), in template order. */
  const UserRoles: seq<string> := [
    "greenlightideuser", "sandboxadmin", "workSpaceEditor", "deletescans",
    "securityLabsUser", "extexecutive", "collectionManager", "extpolicyadmin",
    "extelearn", "extsubmitter", "extreviewer", "workSpaceAdmin", "extcreator",
    "extmitigationapprover", "collectionReviewer", "extseclead",
    "securityinsightsonly", "sandboxuser"]

  /** `USER_CREATION_INPUT`: the template every user body is copied from. */
  const UserCreationInput := UserCreationBody("", "", "", "", false, true, "VOSP", UserRoles)

  /** The settings dictionary loaded at start-up and shared by every command.
      `saved` records each document `save_settings` wrote, oldest first. */
  class SettingsDict {
    var activatedCredentials: string
    var apiBase: string
    var adminBase: string
    var headers: map<string, string>
    var saved: seq<Settings>

    function Value(): Settings
      reads this
    {
      Settings(activatedCredentials, apiBase, adminBase, headers)
    }

    /** The dictionary `json.load` gives for a settings file holding `s`. */
    constructor (s: Settings)
      ensures Value() == s && saved == []
    {
      activatedCredentials := s.activatedCredentials;
      apiBase := s.apiBase;
      adminBase := s.adminBase;
      headers := s.headers;
      saved := [];
    }

    /** `save_settings`: the whole document is written, nothing changes in memory. */
    method Save()
      modifies this
      ensures Value() == old(Value())
      ensures saved == old(saved) + [Value()]
    {
      saved := saved + [Value()];
    }
  }
}
