/** The credential-profile store of `src/credentials_commands.py`: the parsed
    credentials file (profile sections in file order, each a map of options),
    the listing that validates it and marks the active profile, and the
    `add`, `update`, `delete` and `activate` commands as transitions on the
    profiles and on the settings' `activated_credentials`. */
module CredentialsCommands {
  import opened Cli
  import opened Constant

  const KeyId := "veracode_api_key_id"
  const KeySecret := "veracode_api_key_secret"

  /** The answer that leaves a profile prompt, whatever profiles exist. */
  const ExitWord := "exit"

  /** The options of one section of the credentials file. */
  type Section = map<string, string>

  /** The credentials file as `ConfigParser` holds it: the section names in
      file order and each section's options. */
  datatype Profiles = Profiles(sections: seq<string>, entries: map<string, Section>)
  {
    ghost predicate Valid()
    {
      && Distinct(sections)
      && (forall name :: name in entries <==> name in sections)
    }
  }

  /** A section holding exactly the two credential options. */
  function CredentialSection(id: string, secret: string): Section
  {
    map[KeyId := id, KeySecret := secret]
  }

  predicate Complete(s: Section)
  {
    KeyId in s && KeySecret in s
  }

  /** Every profile has both credential options. */
  predicate Parses(p: Profiles)
  {
    forall i :: 0 <= i < |p.sections| ==> p.sections[i] in p.entries && Complete(p.entries[p.sections[i]])
  }

  /** `config[active]['veracode_api_key_id']` and the secret lookup beside it
      both succeed; every request the users and applications groups sign
      reads them first, and a `KeyError` ends the process with status 1. */
  predicate SigningKeys(p: Profiles, active: string)
  {
    active in p.entries && Complete(p.entries[active])
  }

  /** A parsable store with the active name among its profiles has the keys;
      a store without profiles never has them. */
  lemma SigningKeysOfActive(p: Profiles, active: string)
    requires p.Valid()
    ensures Parses(p) && active in p.sections ==> SigningKeys(p, active)
    ensures p.sections == [] ==> !SigningKeys(p, active)
  {
    if Parses(p) && active in p.sections {
      var i :| 0 <= i < |p.sections| && p.sections[i] == active;
    }
  }

  /** `config[name] = dict()` followed by the two option assignments: a new
      section is appended, an existing one is emptied where it stands. */
  function Put(p: Profiles, name: string, id: string, secret: string): (q: Profiles)
    requires p.Valid()
    ensures q.Valid()
    ensures name in q.entries && q.entries[name].Keys == {KeyId, KeySecret}
    ensures q.entries[name][KeyId] == id && q.entries[name][KeySecret] == secret
    ensures forall n :: n != name ==> (n in q.entries <==> n in p.entries)
    ensures forall n :: n != name && n in p.entries ==> q.entries[n] == p.entries[n]
    ensures |q.sections| == |p.sections| + (if name in p.entries then 0 else 1)
    ensures forall i :: 0 <= i < |p.sections| ==> q.sections[i] == p.sections[i]
  {
    Profiles(if name in p.sections then p.sections else p.sections + [name],
             p.entries[name := CredentialSection(id, secret)])
  }

  /** The position of `x` in `s`. */
  function IndexOf(s: seq<string>, x: string): (i: nat)
    requires x in s
    ensures i < |s| && s[i] == x
    ensures forall j :: 0 <= j < i ==> s[j] != x
  {
    if s[0] == x then 0 else 1 + IndexOf(s[1..], x)
  }

  ghost predicate Distinct(s: seq<string>)
  {
    forall i, j :: 0 <= i < j < |s| ==> s[i] != s[j]
  }

  /** Removing one name from a list without repeats removes exactly that name. */
  lemma RemoveAtDistinct(s: seq<string>, k: nat)
    requires Distinct(s) && k < |s|
    ensures Distinct(RemoveAt(s, k))
    ensures forall n :: n in RemoveAt(s, k) <==> n in s && n != s[k]
  {
    var r := RemoveAt(s, k);
    forall n | n in s && n != s[k]
      ensures n in r
    {
      var i :| 0 <= i < |s| && s[i] == n;
      assert r[if i < k then i else i - 1] == n;
    }
  }

  /** `del config[name]`: that section goes, the others keep their order and options. */
  function Drop(p: Profiles, name: string): (q: Profiles)
    requires p.Valid() && name in p.entries
    ensures q.Valid()
    ensures name !in q.entries
    ensures forall n :: n != name ==> (n in q.entries <==> n in p.entries)
    ensures forall n :: n in q.entries ==> q.entries[n] == p.entries[n]
    ensures |q.sections| == |p.sections| - 1
    ensures q.sections == RemoveAt(p.sections, IndexOf(p.sections, name))
  {
    var k := IndexOf(p.sections, name);
    RemoveAtDistinct(p.sections, k);
    Profiles(RemoveAt(p.sections, k), p.entries - {name})
  }

  /** One line of `credentials list`. */
  datatype CredentialRow = CredentialRow(id: nat, profile: string, apiKeyId: string, active: string)

  /** `print_credentials`: a row per profile, numbered from 1, "Yes" for the
      active one; it raises "Cannot parse credentials file." at the first
      profile missing an option, after the rows before it were printed. */
  method PrintCredentials(p: Profiles, activated: string) returns (rows: seq<CredentialRow>, parsed: bool)
    requires p.Valid()
    ensures parsed <==> Parses(p)
    ensures parsed ==> |rows| == |p.sections|
    ensures !parsed ==> |rows| < |p.sections| && !Complete(p.entries[p.sections[|rows|]])
    ensures forall i :: 0 <= i < |rows| ==>
              && Complete(p.entries[p.sections[i]])
              && rows[i] == CredentialRow(i + 1, p.sections[i], p.entries[p.sections[i]][KeyId],
                                          if p.sections[i] == activated then "Yes" else "No")
    ensures forall i, j :: 0 <= i < j < |rows| ==> rows[i].active == "No" || rows[j].active == "No"
  {
    rows := [];
    var k := 0;
    while k < |p.sections|
      invariant 0 <= k <= |p.sections| && |rows| == k
      invariant forall i :: 0 <= i < k ==>
                  && Complete(p.entries[p.sections[i]])
                  && rows[i] == CredentialRow(i + 1, p.sections[i], p.entries[p.sections[i]][KeyId],
                                              if p.sections[i] == activated then "Yes" else "No")
    {
      var section := p.sections[k];
      var options := p.entries[section];
      if KeyId !in options || KeySecret !in options {
        return rows, false;
      }
      rows := rows + [CredentialRow(k + 1, section, options[KeyId], if section == activated then "Yes" else "No")];
      k := k + 1;
    }
    parsed := true;
  }

  /** What a profile prompt loop settles on. */
  datatype Pick = Chosen(profile: string) | Quit | NoInput

  /** An answer that is neither `exit` nor an existing profile: the loop says
      "not found" and asks again. */
  predicate Unknown(answer: string, sections: seq<string>)
  {
    answer != ExitWord && answer !in sections
  }

  /** The prompt loop of `update`, `delete` and `activate` as a function of the
      answers typed. */
  function Prompted(answers: seq<string>, sections: seq<string>): (pick: Pick)
    ensures pick.Chosen? ==> pick.profile in sections && pick.profile != ExitWord
    ensures pick.Chosen? ==> pick.profile in answers
    ensures pick == Quit ==> ExitWord in answers
    ensures pick == NoInput <==> forall j :: 0 <= j < |answers| ==> Unknown(answers[j], sections)
  {
    if answers == [] then NoInput
    else if answers[0] == ExitWord then Quit
    else if answers[0] in sections then Chosen(answers[0])
    else Prompted(answers[1..], sections)
  }

  /** `exit` quits even when a profile of that name exists. */
  lemma ExitAlwaysQuits(rest: seq<string>, sections: seq<string>)
    ensures Prompted([ExitWord] + rest, sections) == Quit
  {
  }

  /** How many answers the prompt loop reads: up to and including the first
      `exit` or existing profile, or all of them. */
  function PromptUsed(answers: seq<string>, sections: seq<string>): (n: nat)
    ensures n <= |answers|
    ensures Prompted(answers, sections) == NoInput <==> n == |answers| && (n == 0 || Unknown(answers[n - 1], sections))
    ensures Prompted(answers, sections) != NoInput ==> 1 <= n && !Unknown(answers[n - 1], sections)
    ensures forall j :: 0 <= j < n - 1 ==> Unknown(answers[j], sections)
  {
    if answers == [] then 0
    else if !Unknown(answers[0], sections) then 1
    else 1 + PromptUsed(answers[1..], sections)
  }

  /** The prompt loop settles on the FIRST answer that is `exit` or an
      existing profile: it quits if that answer is `exit`, and picks it
      otherwise, whatever later answers say. */
  lemma {:induction false} PromptedIsFirstKnown(answers: seq<string>, sections: seq<string>)
    ensures var n := PromptUsed(answers, sections);
            Prompted(answers, sections) != NoInput ==>
              Prompted(answers, sections) == (if answers[n - 1] == ExitWord then Quit else Chosen(answers[n - 1]))
  {
    if answers != [] && Unknown(answers[0], sections) {
      PromptedIsFirstKnown(answers[1..], sections);
    }
  }

  /** The loop itself, reading answers until one is `exit` or an existing
      profile; `used` is how many answers it read. */
  method PromptProfile(answers: seq<string>, sections: seq<string>) returns (pick: Pick, used: nat)
    ensures pick == Prompted(answers, sections)
    ensures used == PromptUsed(answers, sections)
    ensures used <= |answers|
    ensures pick.NoInput? ==> used == |answers|
    ensures !pick.NoInput? ==> 1 <= used && !Unknown(answers[used - 1], sections)
    ensures !pick.NoInput? ==> pick == (if answers[used - 1] == ExitWord then Quit else Chosen(answers[used - 1]))
    ensures forall j :: 0 <= j < used && (pick.NoInput? || j < used - 1) ==> Unknown(answers[j], sections)
  {
    used := 0;
    while true
      invariant used <= |answers|
      invariant Prompted(answers[used..], sections) == Prompted(answers, sections)
      invariant used + PromptUsed(answers[used..], sections) == PromptUsed(answers, sections)
      invariant forall j :: 0 <= j < used ==> Unknown(answers[j], sections)
      decreases |answers| - used
    {
      if used == |answers| {
        return NoInput, used;
      }
      var profile := answers[used];
      assert answers[used..][1..] == answers[used + 1..];
      used := used + 1;
      if profile == ExitWord {
        return Quit, used;
      }
      if profile in sections {
        return Chosen(profile), used;
      }
    }
  }

  /** The `ConfigParser` of the credentials file. `saved` records each state
      `save_credentials` wrote, oldest first. */
  class Config {
    var sections: seq<string>
    var entries: map<string, Section>
    var saved: seq<Profiles>

    function State(): Profiles
      reads this
    {
      Profiles(sections, entries)
    }

    ghost predicate Valid()
      reads this
    {
      State().Valid()
    }

    /** `config.read(CREDENTIALS)` on a file holding `p`. */
    constructor (p: Profiles)
      requires p.Valid()
      ensures Valid() && State() == p && saved == []
    {
      sections := p.sections;
      entries := p.entries;
      saved := [];
    }

    /** `config[profile] = dict()` and the two option assignments. */
    method Assign(profile: string, id: string, secret: string)
      requires Valid()
      modifies this
      ensures Valid()
      ensures State() == Put(old(State()), profile, id, secret)
      ensures saved == old(saved)
    {
      var section: Section := map[];
      section := section[KeyId := id];
      section := section[KeySecret := secret];
      assert section == CredentialSection(id, secret);
      if profile !in sections {
        sections := sections + [profile];
      }
      entries := entries[profile := section];
    }

    /** `del config[profile]`. */
    method Remove(profile: string)
      requires Valid() && profile in entries
      modifies this
      ensures Valid()
      ensures State() == Drop(old(State()), profile)
      ensures saved == old(saved)
    {
      var k := IndexOf(sections, profile);
      sections := sections[..k] + sections[k + 1..];
      entries := entries - {profile};
    }

    /** `save_credentials`: the whole file is written. */
    method Save()
      modifies this
      ensures State() == old(State())
      ensures saved == old(saved) + [State()]
    {
      saved := saved + [State()];
    }
  }

  /** `credentials add`: an existing profile is overwritten only when the user
      confirms; otherwise nothing changes and nothing is saved. Each answer is
      `None` when input ends at that prompt, and click then aborts before
      anything is assigned or saved; the overwrite question is asked only for
      an existing profile. */
  method AddCredentials(config: Config, profile: Option<string>, overwrite: Option<bool>,
                        keyId: Option<string>, keySecret: Option<string>)
    returns (run: Run<()>)
    requires config.Valid()
    modifies config
    ensures config.Valid()
    ensures var known := profile.Some? && profile.value in old(config.entries);
            var toKeys := profile.Some? && (!known || overwrite == Some(true));
            run == Aborted <==> profile.None? || (known && overwrite.None?) || (toKeys && (keyId.None? || keySecret.None?))
    ensures run == Returns(()) || run == Aborted
    ensures profile.Some? && (profile.value !in old(config.entries) || overwrite == Some(true))
            && keyId.Some? && keySecret.Some? ==>
              && config.State() == Put(old(config.State()), profile.value, keyId.value, keySecret.value)
              && config.saved == old(config.saved) + [config.State()]
    ensures !(profile.Some? && (profile.value !in old(config.entries) || overwrite == Some(true))
              && keyId.Some? && keySecret.Some?) ==>
              config.State() == old(config.State()) && config.saved == old(config.saved)
  {
    if profile.None? {
      return Aborted;
    }
    if profile.value in config.sections {
      if overwrite.None? {
        return Aborted;
      }
      if !overwrite.value {
        return Returns(());
      }
    }
    if keyId.None? || keySecret.None? {
      return Aborted;
    }
    config.Assign(profile.value, keyId.value, keySecret.value);
    config.Save();
    run := Returns(());
  }

  /** `credentials update`: list the profiles, ask for an existing one, confirm,
      and replace its options by exactly the two entered. The confirmation and
      the two key answers are `None` when input ends at that prompt, and click
      then aborts with nothing changed. */
  method UpdateCredentials(config: Config, setting: SettingsDict, names: seq<string>,
                           overwrite: Option<bool>, keyId: Option<string>, keySecret: Option<string>)
    returns (run: Run<()>)
    requires config.Valid()
    modifies config
    ensures config.Valid()
    ensures var p, pick := old(config.State()), Prompted(names, old(config.sections));
            if Parses(p) && pick.Chosen? && overwrite == Some(true) && keyId.Some? && keySecret.Some? then
              && run == Returns(())
              && config.State() == Put(p, pick.profile, keyId.value, keySecret.value)
              && config.saved == old(config.saved) + [config.State()]
            else
              && run == (if !Parses(p) then Exits(1)
                         else if pick == NoInput then Aborted
                         else if pick == Quit then Returns(())
                         else if overwrite == Some(false) then Returns(())
                         else Aborted)
              && config.State() == p && config.saved == old(config.saved)
  {
    var rows, parsed := PrintCredentials(config.State(), setting.activatedCredentials);
    if !parsed {
      return Exits(1);
    }
    var pick, used := PromptProfile(names, config.sections);
    match pick {
      case NoInput => return Aborted;
      case Quit => return Returns(());
      case Chosen(profile) =>
        if overwrite.None? {
          return Aborted;
        }
        if !overwrite.value {
          return Returns(());
        }
        if keyId.None? || keySecret.None? {
          return Aborted;
        }
        config.Assign(profile, keyId.value, keySecret.value);
        config.Save();
        return Returns(());
    }
  }

  /** `credentials delete`: list the profiles, ask for an existing one and
      remove it. The settings, and so `activated_credentials`, are untouched. */
  method DeleteCredentials(config: Config, setting: SettingsDict, names: seq<string>) returns (run: Run<()>)
    requires config.Valid()
    modifies config
    ensures config.Valid()
    ensures var p, pick := old(config.State()), Prompted(names, old(config.sections));
            if Parses(p) && pick.Chosen? then
              && run == Returns(())
              && config.State() == Drop(p, pick.profile)
              && config.saved == old(config.saved) + [config.State()]
            else
              && run == (if !Parses(p) then Exits(1) else if pick == NoInput then Aborted else Returns(()))
              && config.State() == p && config.saved == old(config.saved)
  {
    var rows, parsed := PrintCredentials(config.State(), setting.activatedCredentials);
    if !parsed {
      return Exits(1);
    }
    var pick, used := PromptProfile(names, config.sections);
    match pick {
      case NoInput => return Aborted;
      case Quit => return Returns(());
      case Chosen(profile) =>
        config.Remove(profile);
        config.Save();
        return Returns(());
    }
  }

  /** `credentials activate`: list the profiles, ask for an existing one and
      make it the active one; `exit` ends the process with status 1. `used` is
      how many names were read. */
  method ActivateCredentials(config: Config, setting: SettingsDict, names: seq<string>)
    returns (run: Run<()>, used: nat)
    requires config.Valid()
    modifies setting
    ensures used == (if Parses(config.State()) then PromptUsed(names, config.sections) else 0)
    ensures var p, pick := config.State(), Prompted(names, config.sections);
            if Parses(p) && pick.Chosen? then
              && run == Returns(())
              && setting.Value() == old(setting.Value()).(activatedCredentials := pick.profile)
              && setting.saved == old(setting.saved) + [setting.Value()]
            else
              && run == (if Parses(p) && pick == NoInput then Aborted else Exits(1))
              && setting.Value() == old(setting.Value()) && setting.saved == old(setting.saved)
  {
    used := 0;
    var rows, parsed := PrintCredentials(config.State(), setting.activatedCredentials);
    if !parsed {
      return Exits(1), used;
    }
    var pick;
    pick, used := PromptProfile(names, config.sections);
    match pick {
      case NoInput => return Aborted, used;
      case Quit => return Exits(1), used;
      case Chosen(profile) =>
        setting.activatedCredentials := profile;
        setting.Save();
        return Returns(()), used;
    }
  }

  /** What the confirmation loop of a resource group settles on: how it
      ends, how many times the user said no, and the profile each
      re-activation picked, in order. */
  datatype Confirmation = Confirmation(end: Run<()>, declined: nat, picks: seq<string>)

  /** The confirmation every resource group asks on entry, as a function of
      the answers: while the user declines the active profile, `activate`
      runs on the names not read yet. */
  function ConfirmLoop(p: Profiles, confirms: seq<bool>, names: seq<string>): Confirmation
    decreases |confirms|
  {
    if confirms == [] then Confirmation(Aborted, 0, [])
    else if confirms[0] then Confirmation(Returns(()), 0, [])
    else if !Parses(p) then Confirmation(Exits(1), 1, [])
    else match Prompted(names, p.sections)
      case NoInput => Confirmation(Aborted, 1, [])
      case Quit => Confirmation(Exits(1), 1, [])
      case Chosen(profile) =>
        var rest := ConfirmLoop(p, confirms[1..], names[PromptUsed(names, p.sections)..]);
        Confirmation(rest.end, rest.declined + 1, [profile] + rest.picks)
  }

  /** The loop ends by a "yes", by `exit` or an unparsable file (status 1),
      or when input runs out; the user said no to every confirmation before
      the one that ended it, and each "no" but possibly the last led to a
      pick. */
  lemma {:induction false} ConfirmLoopEnds(p: Profiles, confirms: seq<bool>, names: seq<string>)
    ensures var c := ConfirmLoop(p, confirms, names);
            && (c.end.Returns? || c.end == Exits(1) || c.end == Aborted)
            && c.declined <= |confirms|
            && (forall j :: 0 <= j < c.declined && j < |confirms| ==> !confirms[j])
            && (c.end.Returns? ==> c.declined < |confirms| && confirms[c.declined] && |c.picks| == c.declined)
            && |c.picks| <= c.declined <= |c.picks| + 1
    decreases |confirms|
  {
    if confirms != [] && !confirms[0] && Parses(p) && Prompted(names, p.sections).Chosen? {
      var profile := Prompted(names, p.sections).profile;
      var rest := names[PromptUsed(names, p.sections)..];
      var next := ConfirmLoop(p, confirms[1..], rest);
      ConfirmLoopEnds(p, confirms[1..], rest);
      assert ConfirmLoop(p, confirms, names) == Confirmation(next.end, next.declined + 1, [profile] + next.picks);
      forall j | 1 <= j < next.declined + 1 && j < |confirms|
        ensures !confirms[j]
      {
        assert confirms[j] == confirms[1..][j - 1];
      }
    }
  }

  /** A loop that picked something first picked an existing profile, then
      went on with the remaining answers. */
  lemma ChosenFirst(p: Profiles, confirms: seq<bool>, names: seq<string>) returns (profile: string, rest: seq<string>)
    requires ConfirmLoop(p, confirms, names).picks != []
    ensures confirms != [] && profile in p.sections
    ensures ConfirmLoop(p, confirms, names).picks == [profile] + ConfirmLoop(p, confirms[1..], rest).picks
  {
    profile := Prompted(names, p.sections).profile;
    rest := names[PromptUsed(names, p.sections)..];
  }

  /** Every re-activation of the loop picked an existing profile. */
  lemma {:induction false} ConfirmLoopPicks(p: Profiles, confirms: seq<bool>, names: seq<string>)
    ensures var c := ConfirmLoop(p, confirms, names);
            forall i :: 0 <= i < |c.picks| ==> c.picks[i] in p.sections
    decreases |confirms|
  {
    if ConfirmLoop(p, confirms, names).picks != [] {
      var profile, rest := ChosenFirst(p, confirms, names);
      ConfirmLoopPicks(p, confirms[1..], rest);
      PrependWithin(profile, ConfirmLoop(p, confirms[1..], rest).picks, p.sections);
    }
  }

  lemma PrependWithin(x: string, s: seq<string>, within: seq<string>)
    requires x in within && forall i :: 0 <= i < |s| ==> s[i] in within
    ensures forall i :: 0 <= i < |[x] + s| ==> ([x] + s)[i] in within
  {
  }

  /** Both of the above. */
  lemma ConfirmLoopShape(p: Profiles, confirms: seq<bool>, names: seq<string>)
    ensures var c := ConfirmLoop(p, confirms, names);
            && (c.end.Returns? || c.end == Exits(1) || c.end == Aborted)
            && c.declined <= |confirms|
            && (forall j :: 0 <= j < c.declined && j < |confirms| ==> !confirms[j])
            && (c.end.Returns? ==> c.declined < |confirms| && confirms[c.declined] && |c.picks| == c.declined)
            && |c.picks| <= c.declined <= |c.picks| + 1
            && (forall i :: 0 <= i < |c.picks| ==> c.picks[i] in p.sections)
  {
    ConfirmLoopEnds(p, confirms, names);
    ConfirmLoopPicks(p, confirms, names);
  }

  /** One step of the loop: the answer to the confirmation, then the
      activation it may trigger. */
  lemma ConfirmLoopUnfold(p: Profiles, confirms: seq<bool>, names: seq<string>)
    requires confirms != []
    ensures confirms[0] ==> ConfirmLoop(p, confirms, names) == Confirmation(Returns(()), 0, [])
    ensures !confirms[0] && Parses(p) && Prompted(names, p.sections).Chosen? ==>
              var rest := ConfirmLoop(p, confirms[1..], names[PromptUsed(names, p.sections)..]);
              ConfirmLoop(p, confirms, names)
                == Confirmation(rest.end, rest.declined + 1, [Prompted(names, p.sections).profile] + rest.picks)
    ensures !confirms[0] && !(Parses(p) && Prompted(names, p.sections).Chosen?) ==>
              ConfirmLoop(p, confirms, names)
                == Confirmation(if Parses(p) && Prompted(names, p.sections) == NoInput then Aborted else Exits(1), 1, [])
  {
  }

  /** The first re-activation picks what the profile prompt gives for all the
      names typed; there is a pick only when every profile has both keys. */
  lemma {:induction false} FirstPickIsPrompted(p: Profiles, confirms: seq<bool>, names: seq<string>)
    requires ConfirmLoop(p, confirms, names).picks != []
    ensures Parses(p)
    ensures Prompted(names, p.sections).Chosen?
    ensures ConfirmLoop(p, confirms, names).picks[0] == Prompted(names, p.sections).profile
  {
    assert confirms != [] && !confirms[0] && Parses(p);
  }

  /** Without any profile, a group can only go on when the user accepts the
      active name at once. */
  lemma {:induction false} NoProfilesNoPicks(p: Profiles, confirms: seq<bool>, names: seq<string>)
    requires p.sections == []
    ensures ConfirmLoop(p, confirms, names).picks == []
    ensures ConfirmLoop(p, confirms, names).end.Returns? ==> ConfirmLoop(p, confirms, names).declined == 0
  {
    ConfirmLoopShape(p, confirms, names);
  }

  /** The settings documents written by the successive activations: each is
      the starting document with the active name set to that activation's
      pick. */
  function ActivationSaves(s: Settings, picks: seq<string>): seq<Settings>
  {
    if picks == [] then []
    else ActivationSaves(s, picks[..|picks| - 1]) + [s.(activatedCredentials := picks[|picks| - 1])]
  }

  lemma {:induction false} ActivationSavesAt(s: Settings, picks: seq<string>)
    ensures |ActivationSaves(s, picks)| == |picks|
    ensures forall i :: 0 <= i < |picks| ==> ActivationSaves(s, picks)[i] == s.(activatedCredentials := picks[i])
  {
    if picks != [] {
      ActivationSavesAt(s, picks[..|picks| - 1]);
    }
  }

  /** The active name after the activations that picked `picks`. */
  function LastPick(active: string, picks: seq<string>): (r: string)
    ensures picks == [] ==> r == active
    ensures picks != [] ==> r == picks[|picks| - 1]
  {
    if picks == [] then active else picks[|picks| - 1]
  }

  /** A chosen profile extends the picks so far by one and leaves the rest
      of the loop to the remaining answers. */
  lemma ChosenStep(p: Profiles, confirms: seq<bool>, names: seq<string>, k: nat, picks: seq<string>,
                   goal: Confirmation, used: nat, profile: string)
    requires k < |confirms| && !confirms[k] && Parses(p)
    requires Prompted(names, p.sections) == Chosen(profile) && used == PromptUsed(names, p.sections)
    requires var tail := ConfirmLoop(p, confirms[k..], names);
             goal == Confirmation(tail.end, k + tail.declined, picks + tail.picks)
    ensures var tail := ConfirmLoop(p, confirms[k + 1..], names[used..]);
            goal == Confirmation(tail.end, k + 1 + tail.declined, (picks + [profile]) + tail.picks)
  {
    var here := confirms[k..];
    assert here != [] && !here[0] && here[1..] == confirms[k + 1..];
    var next := ConfirmLoop(p, confirms[k + 1..], names[used..]);
    assert ConfirmLoop(p, here, names) == Confirmation(next.end, next.declined + 1, [profile] + next.picks);
    assert picks + ([profile] + next.picks) == (picks + [profile]) + next.picks;
  }

  lemma SavesStep(start: Settings, picks: seq<string>, profile: string)
    ensures ActivationSaves(start, picks + [profile])
         == ActivationSaves(start, picks) + [start.(activatedCredentials := profile)]
  {
    assert (picks + [profile])[..|picks|] == picks;
  }

  /** The settings after the re-activations that chose `picks`, starting
      from `start`. */
  function AfterPicks(start: Settings, picks: seq<string>): Settings
  {
    start.(activatedCredentials := LastPick(start.activatedCredentials, picks))
  }

  /** The loop's position: `declined` answers were "no", the activations
      chose `picks`, `rest` are the names not yet read, and the remaining
      loop completes `goal`. */
  ghost predicate Reached(p: Profiles, confirms: seq<bool>, goal: Confirmation, declined: nat, rest: seq<string>,
                          picks: seq<string>)
  {
    && declined <= |confirms| && |picks| == declined
    && var tail := ConfirmLoop(p, confirms[declined..], rest);
       goal == Confirmation(tail.end, declined + tail.declined, picks + tail.picks)
  }

  /** The loop stops at its position on a "yes" or at the end of the
      answers, and `goal` is then that position's outcome. */
  lemma ReachedEnd(p: Profiles, confirms: seq<bool>, goal: Confirmation, declined: nat, rest: seq<string>,
                   picks: seq<string>)
    requires Reached(p, confirms, goal, declined, rest, picks)
    requires declined == |confirms| || confirms[declined]
    ensures goal == Confirmation(if declined == |confirms| then Aborted else Returns(()), declined, picks)
  {
    assert picks + [] == picks;
  }

  /** A loop that goes on after a re-activation leaves a profile active. */
  lemma ReturnedPickExists(p: Profiles, confirms: seq<bool>, names: seq<string>)
    ensures var c := ConfirmLoop(p, confirms, names);
            c.end.Returns? && c.picks != [] ==> c.picks[|c.picks| - 1] in p.sections
  {
    ConfirmLoopShape(p, confirms, names);
  }

  /** One pass of the loop after a "no": the re-activation, and where it
      leaves the loop. */
  method Reactivate(config: Config, setting: SettingsDict, confirms: seq<bool>, rest: seq<string>,
                    declined: nat, picks: seq<string>, ghost goal: Confirmation, ghost start: Settings,
                    ghost saved0: seq<Settings>)
    returns (r: Run<()>, rest': seq<string>, picks': seq<string>)
    requires config.Valid()
    requires Reached(config.State(), confirms, goal, declined, rest, picks)
    requires declined < |confirms| && !confirms[declined]
    requires setting.Value() == AfterPicks(start, picks)
    requires setting.saved == saved0 + ActivationSaves(start, picks)
    modifies setting
    ensures r.Returns? ==> Reached(config.State(), confirms, goal, declined + 1, rest', picks')
    ensures !r.Returns? ==> goal == Confirmation(r, declined + 1, picks) && picks' == picks
    ensures setting.Value() == AfterPicks(start, picks')
    ensures setting.saved == saved0 + ActivationSaves(start, picks')
  {
    ghost var p := config.State();
    ghost var savedBefore := setting.saved;
    var used;
    r, used := ActivateCredentials(config, setting, rest);
    if !r.Returns? {
      ConfirmLoopUnfold(p, confirms[declined..], rest);
      return r, rest, picks;
    }
    var profile := setting.activatedCredentials;
    assert setting.Value() == start.(activatedCredentials := profile);
    assert setting.saved == savedBefore + [start.(activatedCredentials := profile)];
    ChosenStep(p, confirms, rest, declined, picks, goal, used, profile);
    SavesStep(start, picks, profile);
    picks' := picks + [profile];
    rest' := rest[used..];
  }

  /** The loop itself; `declined` is how many times the user said no and
      `picks` the profiles the re-activations chose. Each activation saves
      the settings. */
  method ConfirmActiveProfile(config: Config, setting: SettingsDict, confirms: seq<bool>, names: seq<string>)
    returns (run: Run<()>, declined: nat, picks: seq<string>)
    requires config.Valid()
    modifies setting
    ensures Confirmation(run, declined, picks) == ConfirmLoop(config.State(), confirms, names)
    ensures setting.Value() == old(setting.Value()).(activatedCredentials := LastPick(old(setting.activatedCredentials), picks))
    ensures setting.saved == old(setting.saved) + ActivationSaves(old(setting.Value()), picks)
    ensures run.Returns? && declined > 0 ==> setting.activatedCredentials in config.sections
  {
    ghost var p := config.State();
    ghost var start := setting.Value();
    ghost var goal := ConfirmLoop(p, confirms, names);
    declined, picks := 0, [];
    if confirms == [] {
      return Aborted, declined, picks;
    }
    var use := confirms[0];
    var rest := names;
    while !use
      invariant declined < |confirms| && use == confirms[declined]
      invariant Reached(p, confirms, goal, declined, rest, picks)
      invariant setting.Value() == AfterPicks(start, picks)
      invariant setting.saved == old(setting.saved) + ActivationSaves(start, picks)
      decreases |confirms| - declined
    {
      var r;
      r, rest, picks := Reactivate(config, setting, confirms, rest, declined, picks, goal, start, old(setting.saved));
      declined := declined + 1;
      if !r.Returns? {
        return r, declined, picks;
      }
      if declined == |confirms| {
        ReachedEnd(p, confirms, goal, declined, rest, picks);
        return Aborted, declined, picks;
      }
      use := confirms[declined];
    }
    ReachedEnd(p, confirms, goal, declined, rest, picks);
    ReturnedPickExists(p, confirms, names);
    run := Returns(());
  }
}
