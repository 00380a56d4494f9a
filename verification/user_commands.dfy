/** The users group of `user_commands.py`: the `User` record with the
    defaults its constructor applies, the user-creation body, the listing and
    the optional per-user detail fetch, the rendered rows, the batch create
    that counts successes, the interactive add, and the delete-by-index loop. */
module UserCommands {
  import opened Cli
  import opened Constant
  import opened CredentialsCommands

  datatype User = User(
    firstName: string,
    lastName: string,
    email: string,
    username: string,
    userId: string,
    saml: bool,
    enabled: bool,
    lastLogin: Option<string>)

  /** `User.__init__`. Each optional argument is replaced by a default when it
      is falsy; for `enabled` that default is `True`, so a user is enabled
      whatever flag it is given. */
  function NewUser(firstName: string, lastName: string, email: string, username: string,
                   userId: Option<string>, saml: Option<bool>, enabled: Option<bool>,
                   lastLogin: Option<string>): (u: User)
    ensures u.firstName == firstName && u.lastName == lastName
    ensures u.email == email && u.username == username
    ensures u.userId == "" <==> !Truthy(userId)
    ensures Truthy(userId) ==> u.userId == userId.value
    ensures u.saml <==> saml == Some(true)
    ensures u.enabled
    ensures u.lastLogin == None <==> !Truthy(lastLogin)
    ensures u.lastLogin.Some? ==> u.lastLogin == lastLogin
  {
    User(firstName, lastName, email, username,
         if !Truthy(userId) then "" else userId.value,
         if saml.None? || !saml.value then false else saml.value,
         if enabled.None? || !enabled.value then true else enabled.value,
         if !Truthy(lastLogin) then None else lastLogin)
  }

  /** `get_user_json`: a copy of the template with exactly the first name, last
      name, email address and user name replaced. */
  function UserJson(u: User): (b: UserCreationBody)
    ensures b.firstName == u.firstName && b.lastName == u.lastName
    ensures b.emailAddress == u.email && b.userName == u.username
    ensures b.(firstName := "", lastName := "", emailAddress := "", userName := "") == UserCreationInput
  {
    UserCreationInput.(firstName := u.firstName, lastName := u.lastName,
                       emailAddress := u.email, userName := u.username)
  }

  /** One item of the `/users` listing. */
  datatype UserItem = UserItem(emailAddress: string, userId: string, samlUser: bool, loginEnabled: bool)

  /** The `User` that `fetch_users` builds from one listed item: no names yet,
      the email address doubling as user name, and enabled even when the item
      says its login is disabled. */
  function ListedUser(item: UserItem): (u: User)
    ensures u.firstName == "" && u.lastName == ""
    ensures u.email == item.emailAddress && u.username == item.emailAddress
    ensures u.userId == item.userId && u.saml == item.samlUser
    ensures u.enabled && u.lastLogin == None
  {
    NewUser("", "", item.emailAddress, item.emailAddress,
            Some(item.userId), Some(item.samlUser), Some(item.loginEnabled), None)
  }

  function ListedUsers(items: seq<UserItem>): (users: seq<User>)
    ensures |users| == |items|
    ensures forall i :: 0 <= i < |items| ==> users[i] == ListedUser(items[i])
  {
    seq(|items|, i requires 0 <= i < |items| => ListedUser(items[i]))
  }

  /** The listing part of `fetch_users`: a user per item, in order, on
      success; an empty list on an error status; exit 1 on a transport failure. */
  method ListUsers(listing: Reply<seq<UserItem>>) returns (r: Run<seq<User>>)
    ensures listing.NoReply? ==> r == Exits(1)
    ensures listing.Failed? ==> r == Returns([])
    ensures listing.Ok? ==> r == Returns(ListedUsers(listing.body))
  {
    match listing {
      case NoReply => return Exits(1);
      case Failed(_, _) => return Returns([]);
      case Ok(items) =>
        var users: seq<User> := [];
        for k := 0 to |items|
          invariant |users| == k
          invariant forall i :: 0 <= i < k ==> users[i] == ListedUser(items[i])
        {
          users := users + [ListedUser(items[k])];
        }
        assert users == ListedUsers(items);
        return Returns(users);
    }
  }

  /** The body of a `/users/{id}` reply; a missing or null `last_login` is `None`. */
  datatype UserDetail = UserDetail(firstName: string, lastName: string, lastLogin: Option<string>)

  /** A user after its detail request: a success sets the two names and the
      last login; an error status leaves the user as it was. */
  function WithDetail(u: User, reply: Reply<UserDetail>): (d: User)
    ensures reply.Ok? ==> d.firstName == reply.body.firstName && d.lastName == reply.body.lastName
                          && d.lastLogin == reply.body.lastLogin
    ensures d.email == u.email && d.username == u.username && d.userId == u.userId
    ensures d.saml == u.saml && d.enabled == u.enabled
    ensures !reply.Ok? ==> d == u
  {
    if reply.Ok? then u.(firstName := reply.body.firstName, lastName := reply.body.lastName,
                         lastLogin := reply.body.lastLogin)
    else u
  }

  /** The detail loop of `fetch_users`: one request per user, by its id, in
      order; the first transport failure exits with status 1. */
  method FetchDetails(users: seq<User>, details: string -> Reply<UserDetail>) returns (r: Run<seq<User>>)
    ensures r == Exits(1) <==> exists i :: 0 <= i < |users| && details(users[i].userId).NoReply?
    ensures r == Exits(1) || r.Returns?
    ensures r.Returns? ==> |r.value| == |users|
    ensures r.Returns? ==> forall i :: 0 <= i < |users| ==> r.value[i] == WithDetail(users[i], details(users[i].userId))
  {
    var updated := users;
    for k := 0 to |users|
      invariant |updated| == |users|
      invariant forall i :: 0 <= i < k ==> !details(users[i].userId).NoReply?
      invariant forall i :: 0 <= i < k ==> updated[i] == WithDetail(users[i], details(users[i].userId))
      invariant forall i :: k <= i < |users| ==> updated[i] == users[i]
    {
      var response := details(updated[k].userId);
      if response.NoReply? {
        return Exits(1);
      }
      updated := updated[k := WithDetail(updated[k], response)];
    }
    return Returns(updated);
  }

  /** `fetch_users`: the signing keys of the active profile are looked up
      first, and a missing profile or option ends the process with status 1;
      then the listing and, with `--show-details`, the detail loop. */
  method FetchUsers(p: Profiles, active: string, listing: Reply<seq<UserItem>>, showDetails: bool,
                    details: string -> Reply<UserDetail>)
    returns (r: Run<seq<User>>)
    ensures !SigningKeys(p, active) ==> r == Exits(1)
    ensures SigningKeys(p, active) && listing.NoReply? ==> r == Exits(1)
    ensures SigningKeys(p, active) && listing.Failed? ==> r == Returns([])
    ensures SigningKeys(p, active) && listing.Ok? && !showDetails ==> r == Returns(ListedUsers(listing.body))
    ensures SigningKeys(p, active) && listing.Ok? && showDetails ==>
              (r == Exits(1) <==> exists i :: 0 <= i < |listing.body| && details(listing.body[i].userId).NoReply?)
    ensures SigningKeys(p, active) && listing.Ok? && showDetails && r.Returns? ==>
              && |r.value| == |listing.body|
              && forall i :: 0 <= i < |listing.body| ==>
                   r.value[i] == WithDetail(ListedUser(listing.body[i]), details(listing.body[i].userId))
  {
    if !SigningKeys(p, active) {
      return Exits(1);
    }
    r := ListUsers(listing);
    if r.Returns? && showDetails {
      r := FetchDetails(r.value, details);
      if listing.Failed? {
        assert r.value == [];
      }
    }
  }


  /** One printed row: without details, the email and the enabled and SAML
      flags as "True" or "False"; with details, the email cut to 28
      characters, the names to 10, and the last login or "None". */
  datatype UserLine =
    | Brief(id: nat, email: string, enabled: string, saml: string)
    | WithDetails(id: nat, email: string, firstName: string, lastName: string, lastLogin: string)

  /** `s[:k] + (s[k:] and '..')`: a string longer than `k` is cut to `k`
      characters and marked with "..". */
  function Truncate(s: string, k: nat): (r: string)
    ensures |s| <= k ==> r == s
    ensures |s| > k ==> r == s[..k] + ".." && |r| == k + 2
    ensures |r| <= k + 2
  {
    var head := if k <= |s| then s[..k] else s;
    var tail := if k <= |s| then s[k..] else "";
    head + (if tail == "" then "" else "..")
  }

  function PyBool(b: bool): string
  {
    if b then "True" else "False"
  }

  /** `print_users`: one row per user, numbered from 1. */
  method PrintUsers(users: seq<User>, showDetails: bool) returns (lines: seq<UserLine>)
    ensures |lines| == |users|
    ensures forall i :: 0 <= i < |users| ==> lines[i].id == i + 1
    ensures !showDetails ==> forall i :: 0 <= i < |users| ==>
              lines[i] == Brief(i + 1, users[i].email, PyBool(users[i].enabled), PyBool(users[i].saml))
    ensures showDetails ==> forall i :: 0 <= i < |users| ==>
              lines[i] == WithDetails(i + 1, Truncate(users[i].email, 28), Truncate(users[i].firstName, 10),
                                      Truncate(users[i].lastName, 10),
                                      if !Truthy(users[i].lastLogin) then "None" else users[i].lastLogin.value)
  {
    lines := [];
    for k := 0 to |users|
      invariant |lines| == k
      invariant forall i :: 0 <= i < k ==> lines[i].id == i + 1
      invariant !showDetails ==> forall i :: 0 <= i < k ==>
                  lines[i] == Brief(i + 1, users[i].email, PyBool(users[i].enabled), PyBool(users[i].saml))
      invariant showDetails ==> forall i :: 0 <= i < k ==>
                  lines[i] == WithDetails(i + 1, Truncate(users[i].email, 28), Truncate(users[i].firstName, 10),
                                          Truncate(users[i].lastName, 10),
                                          if !Truthy(users[i].lastLogin) then "None" else users[i].lastLogin.value)
    {
      var user := users[k];
      var line;
      if !showDetails {
        line := Brief(k + 1, user.email, PyBool(user.enabled), PyBool(user.saml));
      } else {
        line := WithDetails(k + 1, Truncate(user.email, 28), Truncate(user.firstName, 10),
                            Truncate(user.lastName, 10),
                            if !Truthy(user.lastLogin) then "None" else user.lastLogin.value);
      }
      lines := lines + [line];
    }
  }

  /** A listed user whose login is disabled is shown as enabled. */
  lemma DisabledUserShowsEnabled(item: UserItem, id: nat)
    requires !item.loginEnabled
    ensures ListedUser(item).enabled
    ensures Brief(id, item.emailAddress, PyBool(ListedUser(item).enabled), PyBool(item.samlUser)).enabled == "True"
  {
  }

  /** `add_users_to_platform`: every user is posted, in order,
      whatever the replies, and the count is of the items `Created` holds
      for; a transport failure on the very first request leaves `response`
      unbound, and reading it ends the process with status 1. Before any
      request the signing keys are looked up, and without them nothing is
      posted and the process ends with status 1. */
  method AddUsersToPlatform(p: Profiles, active: string, users: seq<User>, replies: nat -> Reply<()>)
    returns (sent: seq<UserCreationBody>, count: nat, run: Run<()>)
    ensures run == Returns(()) || run == Exits(1)
    ensures run == Exits(1) <==> !SigningKeys(p, active) || (|users| > 0 && replies(0).NoReply?)
    ensures run == Exits(1) ==>
              count == 0 && sent == (if SigningKeys(p, active) then [UserJson(users[0])] else [])
    ensures run == Returns(()) ==>
              && |sent| == |users|
              && (forall i :: 0 <= i < |users| ==> sent[i] == UserJson(users[i]))
              && count == CreatedCount(replies, |users|)
  {
    if !SigningKeys(p, active) {
      return [], 0, Exits(1);
    }
    sent := [];
    count := 0;
    var response: Option<Reply<()>> := None;
    for idx := 0 to |users|
      invariant |sent| == idx
      invariant forall i :: 0 <= i < idx ==> sent[i] == UserJson(users[i])
      invariant count == CreatedCount(replies, idx)
      invariant idx > 0 ==> response == Latest(replies, idx - 1) && response.Some?
      invariant idx > 0 ==> !replies(0).NoReply?
      invariant idx == 0 ==> response == None
    {
      sent := sent + [UserJson(users[idx])];
      var reply := replies(idx);
      if !reply.NoReply? {
        response := Some(reply);
      }
      assert response == Latest(replies, idx);
      if response.None? {
        return sent, count, Exits(1);
      }
      if response.value.Ok? {
        count := count + 1;
      }
    }
    run := Returns(());
  }

  /** One round of `users add`: the three prompts and the "Add more users"
      confirmation. */
  datatype UserEntry = UserEntry(email: string, firstName: string, lastName: string, addMore: bool)

  /** `users add`: users are collected, in entry order and with the email as
      user name, until the user declines to add more; then all are posted. */
  method AddUser(p: Profiles, active: string, entries: seq<UserEntry>, replies: nat -> Reply<()>)
    returns (users: seq<User>, sent: seq<UserCreationBody>, count: nat, run: Run<()>)
    ensures |users| <= |entries|
    ensures forall i :: 0 <= i < |users| ==>
              users[i] == NewUser(entries[i].firstName, entries[i].lastName, entries[i].email, entries[i].email,
                                  None, None, None, None)
    ensures forall i :: 0 <= i < |users| ==> users[i].username == users[i].email == entries[i].email
    ensures run == Aborted <==> forall i :: 0 <= i < |entries| ==> entries[i].addMore
    ensures run == Aborted ==> |users| == |entries| && sent == [] && count == 0
    ensures run != Aborted ==>
              && 1 <= |users| && !entries[|users| - 1].addMore
              && (forall i :: 0 <= i < |users| - 1 ==> entries[i].addMore)
              && (run == Exits(1) <==> !SigningKeys(p, active) || replies(0).NoReply?)
              && (run == Exits(1) ==>
                    count == 0 && sent == (if SigningKeys(p, active) then [UserJson(users[0])] else []))
              && (run != Exits(1) ==>
                    && run == Returns(())
                    && |sent| == |users| && (forall i :: 0 <= i < |users| ==> sent[i] == UserJson(users[i]))
                    && count == CreatedCount(replies, |users|))
  {
    users := [];
    while true
      invariant |users| <= |entries|
      invariant forall i :: 0 <= i < |users| ==>
                  users[i] == NewUser(entries[i].firstName, entries[i].lastName, entries[i].email, entries[i].email,
                                      None, None, None, None)
      invariant forall i :: 0 <= i < |users| ==> entries[i].addMore
      decreases |entries| - |users|
    {
      if |users| == |entries| {
        return users, [], 0, Aborted;
      }
      var entry := entries[|users|];
      var user := NewUser(entry.firstName, entry.lastName, entry.email, entry.email, None, None, None, None);
      users := users + [user];
      if !entry.addMore {
        sent, count, run := AddUsersToPlatform(p, active, users, replies);
        return;
      }
    }
  }

  /** `users delete`: the users are fetched, then the delete-by-index loop
      runs on them. Each delete looks the signing keys up again, in the same
      store and under the same active name, so only the lookup of the fetch
      can fail. */
  method DeleteUser(p: Profiles, active: string, listing: Reply<seq<UserItem>>, indices: seq<int>,
                    attempts: seq<Attempt>)
    returns (rows: seq<User>, end: Run<()>)
    ensures (!SigningKeys(p, active) || listing.NoReply?) ==> rows == [] && end == Exits(1)
    ensures SigningKeys(p, active) && listing.Failed? ==> Session(rows, end) == DeleteSession([], indices, attempts)
    ensures SigningKeys(p, active) && listing.Ok? ==>
              Session(rows, end) == DeleteSession(ListedUsers(listing.body), indices, attempts)
  {
    var fetched := FetchUsers(p, active, listing, false, _ => NoReply);
    if !fetched.Returns? {
      return [], Exits(1);
    }
    rows, end := DeleteLoop(fetched.value, indices, attempts);
  }

  /** The `users` group's entry check: without any credential profile it
      refuses to run; otherwise the active profile is confirmed, re-activating
      until the user accepts one. */
  method Users(config: Config, setting: SettingsDict, confirms: seq<bool>, names: seq<string>)
    returns (run: Run<()>, declined: nat, picks: seq<string>)
    requires config.Valid()
    modifies setting
    ensures config.sections == [] ==> run == Exits(1) && declined == 0 && picks == []
    ensures config.sections != [] ==>
              Confirmation(run, declined, picks) == ConfirmLoop(config.State(), confirms, names)
    ensures setting.Value() ==
              old(setting.Value()).(activatedCredentials := LastPick(old(setting.activatedCredentials), picks))
    ensures setting.saved == old(setting.saved) + ActivationSaves(old(setting.Value()), picks)
    ensures run.Returns? && declined > 0 ==> setting.activatedCredentials in config.sections
  {
    if config.sections == [] {
      return Exits(1), 0, [];
    }
    run, declined, picks := ConfirmActiveProfile(config, setting, confirms, names);
  }
}
