/** The older users group of `users/user_commands.py`: its own `User` record
    without a last login, the same creation body, the listing without
    details, rows with "True"/"False" flags, a batch create that stops the
    process at the first request that fails, the interactive add, and an
    entry check that does not look for credential profiles. */
module LegacyUserCommands {
  import opened Cli
  import opened Constant
  import opened CredentialsCommands
  import UserCommands

  datatype User = User(
    firstName: string,
    lastName: string,
    email: string,
    username: string,
    userId: string,
    saml: bool,
    enabled: bool)

  /** `User.__init__`, with the same falsy-argument defaults as the newer
      record; here too a user is enabled whatever flag it is given. */
  function NewUser(firstName: string, lastName: string, email: string, username: string,
                   userId: Option<string>, saml: Option<bool>, enabled: Option<bool>): (u: User)
    ensures u.firstName == firstName && u.lastName == lastName
    ensures u.email == email && u.username == username
    ensures u.userId == "" <==> !Truthy(userId)
    ensures Truthy(userId) ==> u.userId == userId.value
    ensures u.saml <==> saml == Some(true)
    ensures u.enabled
  {
    User(firstName, lastName, email, username,
         if !Truthy(userId) then "" else userId.value,
         if saml.None? || !saml.value then false else saml.value,
         if enabled.None? || !enabled.value then true else enabled.value)
  }

  /** The newer record holding the same fields and no last login. */
  function Current(u: User): (c: UserCommands.User)
    ensures c.firstName == u.firstName && c.lastName == u.lastName
    ensures c.email == u.email && c.username == u.username
    ensures c.userId == u.userId && c.saml == u.saml && c.enabled == u.enabled
    ensures c.lastLogin == None
  {
    UserCommands.User(u.firstName, u.lastName, u.email, u.username, u.userId, u.saml, u.enabled, None)
  }

  /** `get_user_json`: the body the newer `get_user_json` builds for the same
      fields, so the template with exactly the names, the email address and
      the user name replaced. */
  function UserJson(u: User): (b: UserCreationBody)
    ensures b.firstName == u.firstName && b.lastName == u.lastName
    ensures b.emailAddress == u.email && b.userName == u.username
    ensures b.(firstName := "", lastName := "", emailAddress := "", userName := "") == UserCreationInput
  {
    UserCommands.UserJson(Current(u))
  }

  /** The user built from one listed item, as in the newer `fetch_users`. */
  function ListedUser(item: UserCommands.UserItem): (u: User)
    ensures u.firstName == "" && u.lastName == ""
    ensures u.email == item.emailAddress && u.username == item.emailAddress
    ensures u.userId == item.userId && u.saml == item.samlUser
    ensures u.enabled
  {
    NewUser("", "", item.emailAddress, item.emailAddress,
            Some(item.userId), Some(item.samlUser), Some(item.loginEnabled))
  }

  /** Both versions list a user the same way, apart from the last login the
      older record does not have. */
  lemma ListedUserAgrees(item: UserCommands.UserItem)
    ensures Current(ListedUser(item)) == UserCommands.ListedUser(item)
    ensures UserJson(ListedUser(item)) == UserCommands.UserJson(UserCommands.ListedUser(item))
  {
  }

  /** `fetch_users`: exit 1 when the signing keys of the active profile
      cannot be looked up; then a user per item, in order, on success; an
      empty list on an error status; exit 1 on a transport failure. */
  method FetchUsers(p: Profiles, active: string, listing: Reply<seq<UserCommands.UserItem>>)
    returns (r: Run<seq<User>>)
    ensures !SigningKeys(p, active) ==> r == Exits(1)
    ensures SigningKeys(p, active) && listing.NoReply? ==> r == Exits(1)
    ensures SigningKeys(p, active) && listing.Failed? ==> r == Returns([])
    ensures SigningKeys(p, active) && listing.Ok? ==> r.Returns? && |r.value| == |listing.body|
    ensures SigningKeys(p, active) && listing.Ok? ==>
              forall i :: 0 <= i < |listing.body| ==> r.value[i] == ListedUser(listing.body[i])
  {
    if !SigningKeys(p, active) {
      return Exits(1);
    }
    match listing {
      case NoReply => return Exits(1);
      case Failed(_, _) => return Returns([]);
      case Ok(items) =>
        var users: seq<User> := [];
        for k := 0 to |items|
          invariant |users| == k
          invariant forall i :: 0 <= i < k ==> users[i] == ListedUser(items[i])
        {
          users := users + [ListedUser(items[k])];
        }
        return Returns(users);
    }
  }

  /** `print_users`: one row per user, numbered from 1, with the enabled and
      SAML flags as "True" or "False". */
  method PrintUsers(users: seq<User>) returns (lines: seq<UserCommands.UserLine>)
    ensures |lines| == |users|
    ensures forall i :: 0 <= i < |users| ==>
              lines[i] == UserCommands.Brief(i + 1, users[i].email,
                                             UserCommands.PyBool(users[i].enabled), UserCommands.PyBool(users[i].saml))
  {
    lines := [];
    for k := 0 to |users|
      invariant |lines| == k
      invariant forall i :: 0 <= i < k ==>
                  lines[i] == UserCommands.Brief(i + 1, users[i].email,
                                                 UserCommands.PyBool(users[i].enabled), UserCommands.PyBool(users[i].saml))
    {
      var user := users[k];
      lines := lines + [UserCommands.Brief(k + 1, user.email,
                                           UserCommands.PyBool(user.enabled), UserCommands.PyBool(user.saml))];
    }
  }

  /** `add_users_to_platform`: the users are posted in order until a request
      fails, by transport or by status, which ends the process with status 1;
      `sent` is every body posted, the failing one included. Before any
      request the signing keys are looked up, and without them nothing is
      posted and the process ends with status 1. */
  method AddUsersToPlatform(p: Profiles, active: string, users: seq<User>, replies: nat -> Reply<()>)
    returns (sent: seq<UserCreationBody>, run: Run<()>)
    ensures run == Returns(()) || run == Exits(1)
    ensures run == Returns(()) <==> SigningKeys(p, active) && forall i :: 0 <= i < |users| ==> replies(i).Ok?
    ensures |sent| <= |users|
    ensures forall i :: 0 <= i < |sent| ==> sent[i] == UserJson(users[i])
    ensures run == Returns(()) ==> |sent| == |users|
    ensures !SigningKeys(p, active) ==> sent == []
    ensures run == Exits(1) && SigningKeys(p, active) ==>
              && 1 <= |sent| && !replies(|sent| - 1).Ok?
              && forall i :: 0 <= i < |sent| - 1 ==> replies(i).Ok?
  {
    if !SigningKeys(p, active) {
      return [], Exits(1);
    }
    sent := [];
    for idx := 0 to |users|
      invariant |sent| == idx
      invariant forall i :: 0 <= i < idx ==> sent[i] == UserJson(users[i])
      invariant forall i :: 0 <= i < idx ==> replies(i).Ok?
    {
      var userJson := UserJson(users[idx]);
      sent := sent + [userJson];
      var response := replies(idx);
      if !response.Ok? {
        return sent, Exits(1);
      }
    }
    run := Returns(());
  }

  /** `users add`: users are collected, in entry order and with the email as
      user name, until the user declines to add more; then they are posted,
      stopping at the first failure. */
  method AddUser(p: Profiles, active: string, entries: seq<UserCommands.UserEntry>, replies: nat -> Reply<()>)
    returns (users: seq<User>, sent: seq<UserCreationBody>, run: Run<()>)
    ensures |users| <= |entries|
    ensures forall i :: 0 <= i < |users| ==>
              users[i] == NewUser(entries[i].firstName, entries[i].lastName, entries[i].email, entries[i].email,
                                  None, None, None)
    ensures run == Aborted <==> forall i :: 0 <= i < |entries| ==> entries[i].addMore
    ensures run == Aborted ==> |users| == |entries| && sent == []
    ensures run != Aborted ==>
              && 1 <= |users| && !entries[|users| - 1].addMore
              && (forall i :: 0 <= i < |users| - 1 ==> entries[i].addMore)
              && |sent| <= |users| && (forall i :: 0 <= i < |sent| ==> sent[i] == UserJson(users[i]))
              && (run == Returns(()) || run == Exits(1))
              && (run == Returns(()) <==> SigningKeys(p, active) && forall i :: 0 <= i < |users| ==> replies(i).Ok?)
              && (run == Returns(()) ==> |sent| == |users|)
              && (!SigningKeys(p, active) ==> sent == [])
              && (run == Exits(1) && SigningKeys(p, active) ==>
                    && 1 <= |sent| && !replies(|sent| - 1).Ok?
                    && forall i :: 0 <= i < |sent| - 1 ==> replies(i).Ok?)
  {
    users := [];
    while true
      invariant |users| <= |entries|
      invariant forall i :: 0 <= i < |users| ==>
                  users[i] == NewUser(entries[i].firstName, entries[i].lastName, entries[i].email, entries[i].email,
                                      None, None, None)
      invariant forall i :: 0 <= i < |users| ==> entries[i].addMore
      decreases |entries| - |users|
    {
      if |users| == |entries| {
        return users, [], Aborted;
      }
      var entry := entries[|users|];
      var user := NewUser(entry.firstName, entry.lastName, entry.email, entry.email, None, None, None);
      users := users + [user];
      if !entry.addMore {
        sent, run := AddUsersToPlatform(p, active, users, replies);
        return;
      }
    }
  }

  /** The `users` group's entry check: the active profile is confirmed,
      re-activating until the user accepts one, without first checking that
      any profile exists; with none, it can only go on by accepting the
      active name as it is, and the key lookup of every command after it then
      fails. */
  method Users(config: Config, setting: SettingsDict, confirms: seq<bool>, names: seq<string>)
    returns (run: Run<()>, declined: nat, picks: seq<string>)
    requires config.Valid()
    modifies setting
    ensures Confirmation(run, declined, picks) == ConfirmLoop(config.State(), confirms, names)
    ensures setting.Value() ==
              old(setting.Value()).(activatedCredentials := LastPick(old(setting.activatedCredentials), picks))
    ensures setting.saved == old(setting.saved) + ActivationSaves(old(setting.Value()), picks)
    ensures run.Returns? && declined > 0 ==> setting.activatedCredentials in config.sections
    ensures config.sections == [] && run.Returns? ==>
              && declined == 0 && picks == []
              && !SigningKeys(config.State(), setting.activatedCredentials)
  {
    run, declined, picks := ConfirmActiveProfile(config, setting, confirms, names);
    if config.sections == [] {
      NoProfilesNoPicks(config.State(), confirms, names);
      SigningKeysOfActive(config.State(), setting.activatedCredentials);
    }
  }
}
