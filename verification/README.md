# veracode-pov-automations in Dafny

A Dafny model of the `pov` command-line client for the Veracode platform.
The client keeps named API credential profiles and an "active profile" pointer.
It lists, creates and deletes users and applications through the platform's REST API.

What is modelled:

- **Credential store** (`src/credentials_commands.py`, module `CredentialsCommands`).
  - The credentials file is a `Profiles` value: the section names in file order and each section's options.
  - `Config` is the in-memory `ConfigParser`. Its `saved` field records every state `save_credentials` wrote.
  - `add`, `update`, `delete` and `activate` are methods on `Config` and on the settings dictionary.
  - They are proved against the pure transitions `Put` and `Drop` and against the prompt loop `Prompted`.
- **Start-up** (`pov.py`, module `Pov`).
  - Settings are created with their defaults when no settings file exists.
  - An active profile that no longer exists falls back to the first profile.
  - The settings dictionary is the class `Constant.SettingsDict`, with its own `saved` log.
- **Users** (`user_commands.py`, module `UserCommands`) and **applications** (`application_commands.py`, module `ApplicationCommands`).
  - The records and their constructor defaults.
  - The request bodies, as records built from the creation template.
  - The listing, the per-user detail fetch, and the rendered rows.
  - The batch create that counts successes and the interactive add.
  - The delete-by-index loop and each group's entry check.
- **The older users group** (`users/user_commands.py`, module `LegacyUserCommands`).
  - Its batch create is fail-fast.
  - Its entry check does not look for profiles first.
- **Shared pieces** (module `Cli`).
  - The reply of an HTTP request is `Ok(body)`, `Failed(status, message)` or `NoReply`. `NoReply` stands for a `RequestException`.
  - How a command ends is `Returns`, `Exits(status)` or `Aborted`. `Aborted` is click's abort when a prompt reads end of input.
  - The delete loop as a function, `DeleteSession`, and the in-place loop `DeleteLoop` proved equal to it.
  - The evidence about the delete loop is `DeleteSessionEnds` and `DeleteLoop`. `MinusOneQuits`, `OutOfRangeIsIgnored`, `FailedDeleteExits` and `RowIsRemoved` each unfold one step of `DeleteSession`; they document its cases.
  - The success count of the batch create, `CreatedCount`.

Conventions:

- Prompts are input sequences, one per kind of prompt. Examples: the profile names typed, the yes/no answers, the indices typed.
- A prompt asked at most once is an `Option` answer, `None` meaning end of input there (`credentials add` and `update`).
- The reply to the i-th POST of a batch is `replies(i)`.
- The reply to a user's detail request is a function of the user id.

Behaviour of the code that the model keeps, including its surprises:

- Deleting the active profile does not select another profile. `credentials delete` leaves `activated_credentials` as it is. The fallback to the first profile happens at the next start-up (`Pov.DropKeepsPointer`).
- In the counting batch create, a transport failure is not fatal: the exception is caught and the loop reads `response` anyway.
  - On the first item, `response` is unbound, so the command ends with status 1.
  - On a later item, `response` holds the last response actually received, which can be several items back. That response is counted again only if it was a success. See `Cli.Latest` and `Cli.StaleSuccessIsCounted`.
  - Without transport failures, the count is exactly the number of successful replies (`Cli.CountsSuccesses`).
- Declining a delete confirmation is not a graceful stop. `delete_one_*` returns `None`, which is not `'fail'`, so the row is removed from the list shown (`Cli.RowIsRemoved`).
- The older `users` group confirms the active profile without first checking that any profile exists.
- An application listed without any policy makes `policies[0]` raise. The command ends with status 1.
- Every fetch, add and delete of the users and applications groups first reads both keys of the active profile (`config[active]['veracode_api_key_id']` and the secret). A missing profile or option raises `KeyError`, and the command ends with status 1 (`CredentialsCommands.SigningKeys`).
  - The older `users` group reaches this with no profile at all, by accepting the active name.
  - The newer groups reach it when the active profile lacks an option and the user accepts it at once; re-activating first lists the profiles, which exits 1 earlier (`Pov.ConfirmedProfileSigns`).

## Model

| member | source | states |
|---|---|---|
| Cli.RemoveAt | user_commands.py:277 | `del s[i]`: one element shorter, elements before `i` in place, elements after it shifted down by one |
| Cli.RemoveAtMultiset | application_commands.py:230 | `del s[i]` removes exactly one occurrence of `s[i]` from the multiset of elements |
| Cli.Latest | user_commands.py:131-143 | the response the loop reads after item `i`: the item's own reply unless it was a transport failure, else the previous one, and nothing (unbound) before any reply |
| Cli.UnboundUntilFirstResponse | application_commands.py:89-103 | `response` is unbound after item `i` exactly when every request up to `i` failed in transport |
| Cli.CreatedCount | user_commands.py:120-152 | the count is at most the number of items; it equals it iff every item reads a success, and is 0 iff none does |
| Cli.CountsSuccesses | application_commands.py:79-114 | without transport failures, the count is the size of the set of items whose reply was a success |
| Cli.StaleSuccessIsCounted | user_commands.py:138-146 | a success followed by a transport failure counts two created items |
| Cli.DeleteOne | user_commands.py:196-226 | a declined confirmation returns `None`; a confirmed delete returns 'success' or 'fail' by status, or exits 1 on a transport failure (each as an iff) |
| Cli.MinusOneQuits | user_commands.py:267-268 | typing -1 exits with status 0 and leaves the list as it is |
| Cli.OutOfRangeIsIgnored | application_commands.py:222-223 | an index outside 1..len leaves the list unchanged and the loop asks again |
| Cli.FailedDeleteExits | user_commands.py:273-275 | a confirmed delete that does not succeed exits with status 1 and the list unchanged |
| Cli.RowIsRemoved | user_commands.py:272-277 | a successful or declined delete removes exactly row `id - 1`, and the loop continues on the shorter list |
| Cli.DeleteSession | user_commands.py:262-277 | the delete loop as a function of the indices typed and the delete attempts: -1 ends with status 0; an index outside 1..len asks again; a confirmed delete that fails ends with status 1; a success or a declined confirmation removes row `id - 1` and asks again; end of input aborts (its properties are `Cli.DeleteSessionEnds` and the step lemmas above) |
| Cli.DeleteSessionEnds | application_commands.py:215-230 | the loop ends only by -1 (status 0), a failed delete (status 1) or end of input; the rows left are the starting rows with some removed, order kept, and a sub-multiset |
| Cli.DeleteLoop | user_commands.py:262-277 | the in-place loop ends with the list and the outcome `DeleteSession` gives for the same inputs |
| Constant.SettingsDict.constructor | pov.py:29-30 | the loaded dictionary holds the document read and nothing is saved yet |
| Constant.SettingsDict.Save | pov.py:28 | saving writes the whole current document and changes nothing in memory |
| CredentialsCommands.Put | src/credentials_commands.py:72-74 | the profile holds exactly the two key options with the entered values; every other profile is unchanged; an existing section keeps its place, a new one is appended; the store stays well formed |
| CredentialsCommands.Drop | src/credentials_commands.py:129 | exactly the chosen profile is removed; the others keep their options and their order; the store stays well formed |
| CredentialsCommands.PrintCredentials | src/credentials_commands.py:21-33 | listing succeeds iff every profile has both keys; rows are numbered from 1 in file order; "Yes" marks exactly the active profile, at most one row; on failure the rows printed are those before the first incomplete profile |
| CredentialsCommands.SigningKeys | user_commands.py:41-43 | the lookup of both keys of the active profile succeeds: the active name is a profile and it has both options (its properties are `SigningKeysOfActive` and `Pov.ConfirmedProfileSigns`) |
| CredentialsCommands.Prompted | src/credentials_commands.py:88-95 | the loop picks only an existing profile that was typed; it quits only when `exit` was typed; it runs out of input iff every answer was unknown |
| CredentialsCommands.ExitAlwaysQuits | src/credentials_commands.py:122 | `exit` quits even when a profile named `exit` exists |
| CredentialsCommands.PromptedIsFirstKnown | src/credentials_commands.py:88-95 | the loop settles on the first answer that is `exit` or an existing profile: it quits if that answer is `exit` and picks it otherwise, whatever later answers are |
| CredentialsCommands.PromptProfile | src/credentials_commands.py:142-149 | the prompt loop settles on `Prompted` of the answers, reading `PromptUsed` of them; every answer it skipped was unknown; it quits if the last one read is `exit` and picks that answer otherwise |
| CredentialsCommands.Config.constructor | pov.py:34-35 | the parser holds the profiles of the credentials file and nothing is saved |
| CredentialsCommands.Config.Assign | src/credentials_commands.py:104-106 | the parser's new state is `Put` of its old state |
| CredentialsCommands.Config.Remove | src/credentials_commands.py:129 | the parser's new state is `Drop` of its old state |
| CredentialsCommands.Config.Save | src/credentials_commands.py:36-38 | saving writes the whole current state and changes nothing in memory |
| CredentialsCommands.AddCredentials | src/credentials_commands.py:58-76 | end of input at the name, the overwrite question (asked only for an existing profile) or either key prompt aborts; an existing profile with the overwrite declined returns; in both cases nothing changes and nothing is saved; otherwise the state becomes `Put` of the old one with the entered keys and is saved once |
| CredentialsCommands.UpdateCredentials | src/credentials_commands.py:79-108 | an unparsable file exits 1; running out of names, or end of input at the confirmation or a key prompt, aborts; `exit` or a declined overwrite returns; all with nothing changed; a chosen profile with the overwrite confirmed and both keys entered becomes `Put` of the old state and is saved |
| CredentialsCommands.DeleteCredentials | src/credentials_commands.py:111-130 | a chosen profile is removed with `Drop` and the file saved; `exit` changes nothing; the settings are never touched |
| CredentialsCommands.ActivateCredentials | src/credentials_commands.py:133-152 | an unparsable file exits 1 before any prompt; a chosen profile becomes the active name and the settings are saved once, other settings unchanged; `exit` exits 1 and end of input aborts, with nothing changed; it reads exactly `PromptUsed` answers |
| CredentialsCommands.SigningKeysOfActive | user_commands.py:41-43 | a store where every profile has both keys yields them for any existing active name; a store without profiles never does |
| CredentialsCommands.PromptUsed | src/credentials_commands.py:142-149 | how many answers the activation prompt reads: all of them iff it runs out of input, the last one read being a known name or `exit` otherwise, every earlier one unknown |
| CredentialsCommands.ConfirmLoop | application_commands.py:161-170 | the group's confirmation loop as a function of the yes/no answers and the profile names typed: a "yes" proceeds; a "no" runs the activation, which exits 1 on an unparsable file or `exit`, aborts when names run out, and otherwise picks `Prompted` of the unread names and asks again; end of input aborts; it gives the outcome, the number of "no" answers and the picks (its properties are `ConfirmLoopEnds` and `ConfirmLoopPicks`) |
| CredentialsCommands.ConfirmLoopEnds | user_commands.py:166-175 | the loop returns only on a "yes", after exactly as many declines as picks; every earlier answer was "no"; it otherwise exits 1 or aborts, with at most one decline more than picks |
| CredentialsCommands.ConfirmLoopPicks | src/credentials_commands.py:144-152 | every profile the re-activations pick is an existing profile |
| CredentialsCommands.ConfirmLoopShape | user_commands.py:166-175 | both of the above together |
| CredentialsCommands.ConfirmLoopUnfold | application_commands.py:164-170 | a "yes" proceeds at once; a "no" followed by a chosen profile adds that pick and goes on with the remaining answers; any other "no" ends the loop |
| CredentialsCommands.FirstPickIsPrompted | src/credentials_commands.py:140-152 | a pick happens only when every profile has both keys, and the first pick is what the profile prompt gives for the names typed |
| CredentialsCommands.NoProfilesNoPicks | users/user_commands.py:131-141 | without profiles nothing is ever picked, and the group proceeds only when the first answer is "yes" |
| CredentialsCommands.ActivationSavesAt | src/credentials_commands.py:151-152 | one settings document per pick, the i-th being the starting settings with the i-th pick active |
| CredentialsCommands.Reactivate | application_commands.py:165-170 | one re-activation after a "no": the loop moves one position on with the new pick and the remaining answers, or ends with the activation's outcome; the settings follow the picks and their saves |
| CredentialsCommands.ConfirmActiveProfile | application_commands.py:161-170 | the outcome, the number of declined confirmations and the profiles picked are those of `ConfirmLoop`; the active name ends as the last pick, unchanged without one; one settings document is saved per pick, the starting settings with that pick active; after any re-activation the active name is an existing profile |
| Pov.ActiveAfterStartup | pov.py:39-41 | with profiles present, the result is a profile; the active name is kept iff it is a profile or there are none; otherwise it becomes the first profile |
| Pov.LoadSettings | pov.py:26-30 | without a settings file the settings are `SETTINGS_INIT_DICT` and that is saved once; with one they are its contents and nothing is saved |
| Pov.FallBackToFirstProfile | pov.py:39-42 | the active name becomes `ActiveAfterStartup`; the settings are saved only when it changed; the other settings stay |
| Pov.Startup | pov.py:16-42 | after start-up the active name names a profile whenever any exist, and the saves are the defaults (if no file) then the fallback (if it fired) |
| Pov.PutKeepsPointer | src/credentials_commands.py:72-76 | adding or updating a profile keeps the active name valid iff profiles already existed or the new profile has the active name |
| Pov.ConfirmedProfileSigns | application_commands.py:156-170 | after start-up, a confirmed entry check leaves an existing profile active, whose keys are there if the file parses and always after a re-activation |
| Pov.DropKeepsPointer | src/credentials_commands.py:129-130 | deleting a profile leaves the active name invalid iff the active profile itself was deleted and others remain |
| UserCommands.NewUser | user_commands.py:281-290 | falsy id gives '', falsy SAML flag gives False, falsy last login gives None; the user is enabled whatever flag it was given |
| UserCommands.UserJson | user_commands.py:292-298 | the body is the creation template with exactly the first name, last name, email address and user name replaced |
| UserCommands.ListedUser | user_commands.py:58-60 | a listed user has empty names, the email as user name, the item's id and SAML flag, and is enabled even when its login is disabled |
| UserCommands.ListedUsers | user_commands.py:55-61 | one user per listed item, in order |
| UserCommands.ListUsers | user_commands.py:44-65 | a success gives the listed users in order; an error status gives an empty list; a transport failure exits 1 |
| UserCommands.WithDetail | user_commands.py:84-88 | a successful detail reply sets the two names and the last login and nothing else; an error status leaves the user unchanged |
| UserCommands.FetchDetails | user_commands.py:72-90 | the detail loop exits 1 iff some user's request fails in transport; otherwise each user is updated from its own reply, in place and in order |
| UserCommands.FetchUsers | user_commands.py:37-94 | without both keys of the active profile it exits 1; otherwise the listing, then the detail loop only with `--show-details`, each part's outcome as above |
| UserCommands.Truncate | user_commands.py:109-111 | a string of at most `k` characters is unchanged; a longer one is its first `k` characters and "..", `k + 2` long |
| UserCommands.PrintUsers | user_commands.py:97-112 | rows numbered from 1; brief rows show the flags as "True"/"False"; detail rows cut the email to 28 and names to 10 characters and show "None" for no last login |
| UserCommands.DisabledUserShowsEnabled | user_commands.py:289 | a listed user whose login is disabled is shown as "True" in the enabled column |
| UserCommands.AddUsersToPlatform | user_commands.py:115-152 | without both keys of the active profile it exits 1 having posted nothing; otherwise every user's body is posted in order whatever the replies, and the count is `CreatedCount`; a transport failure on the first request exits 1 after that one request |
| UserCommands.AddUser | user_commands.py:229-249 | one user per round, in order, with the email as user name, until a round declines "add more"; then all are posted, with the batch's outcome (including the key lookup); end of input before that aborts with nothing posted |
| UserCommands.DeleteUser | user_commands.py:252-277 | without both keys, or on a transport failure of the listing, it exits 1 with no rows; otherwise the delete loop runs on the users listed without details, as `DeleteSession` |
| UserCommands.Users | user_commands.py:155-175 | without profiles the group exits 1 and leaves the settings alone; otherwise outcome, declines and picks are those of `ConfirmLoop`, the active name ends as the last pick, one settings save per pick |
| ApplicationCommands.ApplicationJson | application_commands.py:241-245 | the profile's name and description are both the application name; every other template field is unchanged |
| ApplicationCommands.ListedApplication | application_commands.py:50-55 | an application from a listed item: the profile name, the first policy's name, the last completed scan date and the guid |
| ApplicationCommands.FetchApplications | application_commands.py:26-61 | without both keys of the active profile it exits 1; otherwise a success gives one application per item in order, or exits 1 iff some item has no policy; an error status gives an empty list; a transport failure exits 1 |
| ApplicationCommands.PrintApplications | application_commands.py:64-71 | rows numbered from 1 with name and policy; the last scan shows "Nil" iff it is absent or empty |
| ApplicationCommands.AddApplicationsToPlatform | application_commands.py:74-114 | without both keys of the active profile it exits 1 having posted nothing; otherwise every application's body is posted in order whatever the replies, and the count is `CreatedCount`; a transport failure on the first request exits 1 |
| ApplicationCommands.AddApplication | application_commands.py:184-202 | each application gets the recommended policy, no last scan and an empty guid, one per round in order; all are posted once a round declines "add more", with the batch's outcome (including the key lookup) |
| ApplicationCommands.DeleteApplication | application_commands.py:205-230 | without both keys, on a failed listing or on a policy-less item it exits 1 with no rows; otherwise the delete loop runs on the listed applications as `DeleteSession` |
| ApplicationCommands.Applications | application_commands.py:150-170 | without profiles the group exits 1 and leaves the settings alone; otherwise outcome, declines and picks are those of `ConfirmLoop`, the active name ends as the last pick, one settings save per pick |
| LegacyUserCommands.NewUser | users/user_commands.py:107-116 | the same defaults as the newer record: falsy id gives '', falsy SAML gives False, and the user is always enabled |
| LegacyUserCommands.UserJson | users/user_commands.py:118-124 | the template with exactly the names, email address and user name replaced, the same body the newer version builds |
| LegacyUserCommands.ListedUser | users/user_commands.py:50-52 | a listed user has empty names, the email as user name, the item's id and SAML flag, and is enabled |
| LegacyUserCommands.ListedUserAgrees | users/user_commands.py:47-58 | the older listing builds the same user and the same body as the newer one, without the last login |
| LegacyUserCommands.FetchUsers | users/user_commands.py:26-58 | without both keys of the active profile it exits 1; otherwise a success gives one user per item in order; an error status gives an empty list; a transport failure exits 1 |
| LegacyUserCommands.PrintUsers | users/user_commands.py:61-66 | rows numbered from 1 with the email and the enabled and SAML flags as "True"/"False" |
| LegacyUserCommands.AddUsersToPlatform | users/user_commands.py:69-104 | it returns iff both keys are there and every reply succeeds, having sent every body; without the keys nothing is sent; otherwise it exits 1 at the first failing request, having sent exactly the bodies up to and including it |
| LegacyUserCommands.AddUser | users/user_commands.py:155-175 | one user per round, in order, with the email as user name; after the last round the fail-fast batch runs: all bodies sent on success, nothing without keys, otherwise up to and including the first failing request, every earlier one a success |
| LegacyUserCommands.Users | users/user_commands.py:127-141 | outcome, declines and picks are those of `ConfirmLoop`, the active name ends as the last pick, one settings save per pick; after a re-activation the active name is a profile; with no profiles it proceeds only by accepting at once, and the key lookup that follows fails |

## Left out

- HTTP transport and HMAC request signing. Each request's outcome is an input (`Reply`), and URLs and headers are not modelled.
- Paging: the user listing asks for one page of at most 160 users (`size=160`); the model takes the items of that one reply.
- The busy spinner thread, click's table formats, colours and the progress bar. Rows are records of their cells.
- The parse and format of a last scan date. `ApplicationCommands.ScanCell` keeps the raw date; only the "Nil" branch is modelled exactly.
- File I/O. Reading the credentials and settings files gives the starting values; `save_credentials` and `save_settings` append to a `saved` log; mkdir/touch are not modelled.
- `ConfigParser` details beyond sections and options: the DEFAULT section, key case folding and malformed-file parse errors. Only a profile missing a key is modelled as unparsable.
- click re-asking on an empty or non-integer answer, and `ctx.invoke` plumbing. A prompt's answer is the next element of its input sequence.
- `APPLICATION_CREATION_INPUT` and `save_settings` are not defined in `constant.py`. The application template is a parameter, and its fields other than the profile's name and description are opaque.
- The older users group imports `activate_credentials` from a `credentials` package that is not part of this model. It is modelled with `src/credentials_commands.py`'s `activate`.
- `update_user` in `users/user_commands.py` passes the settings dictionary to `print_users` and adds nothing; it is not modelled.
- `list_users` / `list_applications` are the header plus the fetch plus the rows, already covered by their parts. The header lines are not modelled.
- `setup.py`, the spreadsheet import and the scan command are not part of this model.
- Exit statuses are the ones the code requests. An uncaught exception is taken to end the process with status 1, and click's abort is kept as its own outcome.
