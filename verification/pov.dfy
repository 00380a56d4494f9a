/** Start-up of the `pov` command group (`main` in `pov.py`): the settings are
    loaded, written with their defaults first when no settings file exists,
    and an active profile that no longer exists falls back to the first
    profile of the credentials file. */
module Pov {
  import opened Cli
  import opened Constant
  import opened CredentialsCommands

  /** The active profile names an existing profile whenever there is one. */
  ghost predicate PointsToProfile(p: Profiles, active: string)
  {
    p.sections == [] || active in p.sections
  }

  /** The active profile name after start-up's fallback. */
  function ActiveAfterStartup(sections: seq<string>, active: string): (r: string)
    ensures sections != [] ==> r in sections
    ensures r == active <==> (active in sections || sections == [])
    ensures r != active ==> r == sections[0]
  {
    if |sections| > 0 && active !in sections then sections[0] else active
  }

  /** The settings dictionary read from the settings file; when there is no
      file, `SETTINGS_INIT_DICT` is written first and read back. */
  method LoadSettings(file: Option<Settings>) returns (setting: SettingsDict)
    ensures fresh(setting)
    ensures setting.Value() == (if file.Some? then file.value else SettingsInit)
    ensures setting.saved == (if file.Some? then [] else [SettingsInit])
  {
    var contents := if file.Some? then file.value else SettingsInit;
    setting := new SettingsDict(contents);
    if file.None? {
      setting.Save();
    }
  }

  /** An active profile that is not among the profiles becomes the first
      profile and the settings are saved; otherwise nothing changes and
      nothing is saved. */
  method FallBackToFirstProfile(config: Config, setting: SettingsDict)
    requires config.Valid()
    modifies setting
    ensures setting.Value()
         == old(setting.Value()).(activatedCredentials := ActiveAfterStartup(config.sections, old(setting.activatedCredentials)))
    ensures setting.saved
         == old(setting.saved) + (if setting.activatedCredentials == old(setting.activatedCredentials) then [] else [setting.Value()])
  {
    if |config.sections| > 0 && setting.activatedCredentials !in config.sections {
      setting.activatedCredentials := config.sections[0];
      setting.Save();
    }
  }

  /** `main`: the settings file (absent or holding a document) and the
      credentials file are read, then the fallback runs. */
  method Startup(settingsFile: Option<Settings>, credentialsFile: Profiles) returns (config: Config, setting: SettingsDict)
    requires credentialsFile.Valid()
    ensures fresh(config) && fresh(setting)
    ensures config.Valid() && config.State() == credentialsFile && config.saved == []
    ensures var loaded := if settingsFile.Some? then settingsFile.value else SettingsInit;
            && setting.Value() == loaded.(activatedCredentials := ActiveAfterStartup(credentialsFile.sections, loaded.activatedCredentials))
            && setting.saved == (if settingsFile.Some? then [] else [SettingsInit])
                                + (if setting.activatedCredentials == loaded.activatedCredentials then [] else [setting.Value()])
    ensures PointsToProfile(credentialsFile, setting.activatedCredentials)
  {
    setting := LoadSettings(settingsFile);
    config := new Config(credentialsFile);
    FallBackToFirstProfile(config, setting);
  }

  /** Adding or updating a profile keeps the active profile valid, except that
      the first profile ever added does not become active until the next
      start-up unless it carries the active name. */
  lemma PutKeepsPointer(p: Profiles, name: string, id: string, secret: string, active: string)
    requires p.Valid() && PointsToProfile(p, active)
    ensures PointsToProfile(Put(p, name, id, secret), active) <==> (p.sections != [] || name == active)
  {
    var q := Put(p, name, id, secret);
    if p.sections == [] {
      assert q.sections == [name];
    } else {
      assert active in p.entries;
      assert active in q.entries;
    }
  }

  /** Deleting a profile leaves the active name pointing at a missing profile
      exactly when the active profile itself was deleted and others remain;
      `credentials delete` does not repair this, the next start-up does. */
  lemma DropKeepsPointer(p: Profiles, name: string, active: string)
    requires p.Valid() && name in p.entries && PointsToProfile(p, active)
    ensures PointsToProfile(Drop(p, name), active) <==> (name != active || |p.sections| == 1)
  {
    var q := Drop(p, name);
    if name == active {
      assert active !in q.entries;
    } else {
      assert active in p.entries;
      assert active in q.entries;
    }
  }

  /** After start-up, an entry check of the users or applications group that
      lets the command go on leaves an existing profile active; its signing
      keys are there whenever the credentials file parses, and always after
      the user re-activated at least once. Otherwise the key lookup of the
      command that follows fails. */
  lemma {:induction false} ConfirmedProfileSigns(p: Profiles, active: string, confirms: seq<bool>, names: seq<string>)
    requires p.Valid() && PointsToProfile(p, active) && p.sections != []
    ensures var c := ConfirmLoop(p, confirms, names);
            c.end.Returns? ==> LastPick(active, c.picks) in p.sections
    ensures var c := ConfirmLoop(p, confirms, names);
            c.end.Returns? && (Parses(p) || c.declined > 0) ==> SigningKeys(p, LastPick(active, c.picks))
  {
    var c := ConfirmLoop(p, confirms, names);
    ConfirmLoopShape(p, confirms, names);
    if c.end.Returns? && c.picks != [] {
      FirstPickIsPrompted(p, confirms, names);
    }
    SigningKeysOfActive(p, LastPick(active, c.picks));
  }
}
