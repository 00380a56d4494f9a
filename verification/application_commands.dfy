/** The applications group of `application_commands.py`: the `Application`
    record, the application-creation body, the listing, the rendered rows,
    the batch create that counts successes, the interactive add, the
    delete-by-index loop and the group's entry check. */
module ApplicationCommands {
  import opened Cli
  import opened Constant
  import opened CredentialsCommands

  /** The policy every interactively added application is shown with. */
  const RecommendedPolicy := "Veracode Recommended High + SCA"

  datatype Application = Application(
    applicationName: string,
    policyName: string,
    lastScan: Option<string>,
    applicationGuid: string)

  /** The `profile` object of an application-creation body; every field other
      than the name and the description is kept as it is, as JSON text. */
  datatype ProfileBody = ProfileBody(name: string, description: string, otherFields: map<string, string>)

  /** An application-creation body: its `profile` object and the other
      top-level fields, as JSON text. The template, `APPLICATION_CREATION_INPUT`,
      is a parameter here. */
  datatype ApplicationBody = ApplicationBody(profile: ProfileBody, otherFields: map<string, string>)

  /** `get_application_json`: a copy of the template whose profile name and
      description are both the application's name. */
  function ApplicationJson(app: Application, template: ApplicationBody): (b: ApplicationBody)
    ensures b.profile.name == app.applicationName && b.profile.description == app.applicationName
    ensures b.profile.otherFields == template.profile.otherFields
    ensures b.otherFields == template.otherFields
  {
    template.(profile := template.profile.(name := app.applicationName, description := app.applicationName))
  }

  /** One item of the `/applications` listing: the profile's name, the names
      of its policies, the last completed scan date (absent when null) and
      the guid. */
  datatype ApplicationItem = ApplicationItem(
    profileName: string,
    policyNames: seq<string>,
    lastCompletedScanDate: Option<string>,
    guid: string)

  /** The application built from one listed item, named by its profile and
      shown with its first policy. */
  function ListedApplication(item: ApplicationItem): (a: Application)
    requires item.policyNames != []
    ensures a.applicationName == item.profileName && a.policyName == item.policyNames[0]
    ensures a.lastScan == item.lastCompletedScanDate && a.applicationGuid == item.guid
  {
    Application(item.profileName, item.policyNames[0], item.lastCompletedScanDate, item.guid)
  }

  /** `fetch_applications`: exit 1 when the signing keys of the active
      profile cannot be looked up; then an application per item, in order, on
      success; an empty list on an error status; exit 1 on a transport
      failure, and on an item without policies, where `policies[0]` raises. */
  method FetchApplications(p: Profiles, active: string, listing: Reply<seq<ApplicationItem>>)
    returns (r: Run<seq<Application>>)
    ensures !SigningKeys(p, active) ==> r == Exits(1)
    ensures SigningKeys(p, active) && listing.NoReply? ==> r == Exits(1)
    ensures SigningKeys(p, active) && listing.Failed? ==> r == Returns([])
    ensures SigningKeys(p, active) && listing.Ok? ==>
              (r == Exits(1) <==> exists i :: 0 <= i < |listing.body| && listing.body[i].policyNames == [])
    ensures r == Exits(1) || r.Returns?
    ensures SigningKeys(p, active) && listing.Ok? && r.Returns? ==>
              && |r.value| == |listing.body|
              && forall i :: 0 <= i < |listing.body| ==>
                   listing.body[i].policyNames != [] && r.value[i] == ListedApplication(listing.body[i])
  {
    if !SigningKeys(p, active) {
      return Exits(1);
    }
    match listing {
      case NoReply => return Exits(1);
      case Failed(_, _) => return Returns([]);
      case Ok(items) =>
        var applications: seq<Application> := [];
        for k := 0 to |items|
          invariant |applications| == k
          invariant forall i :: 0 <= i < k ==>
                      items[i].policyNames != [] && applications[i] == ListedApplication(items[i])
        {
          var item := items[k];
          if item.policyNames == [] {
            return Exits(1);
          }
          applications := applications + [ListedApplication(item)];
        }
        return Returns(applications);
    }
  }

  /** The "Last Scan" column: "Nil" when there is no scan date, otherwise the
      date reformatted (the reformatting is not modelled). */
  datatype ScanCell = Nil | Scanned(date: string)

  datatype ApplicationLine = ApplicationLine(id: nat, name: string, policy: string, lastScan: ScanCell)

  /** `print_applications`: one row per application, numbered from 1. */
  method PrintApplications(applications: seq<Application>) returns (lines: seq<ApplicationLine>)
    ensures |lines| == |applications|
    ensures forall i :: 0 <= i < |applications| ==>
              && lines[i].id == i + 1
              && lines[i].name == applications[i].applicationName
              && lines[i].policy == applications[i].policyName
              && (lines[i].lastScan == Nil <==> !Truthy(applications[i].lastScan))
              && (Truthy(applications[i].lastScan) ==> lines[i].lastScan == Scanned(applications[i].lastScan.value))
  {
    lines := [];
    for k := 0 to |applications|
      invariant |lines| == k
      invariant forall i :: 0 <= i < k ==>
                  && lines[i].id == i + 1
                  && lines[i].name == applications[i].applicationName
                  && lines[i].policy == applications[i].policyName
                  && (lines[i].lastScan == Nil <==> !Truthy(applications[i].lastScan))
                  && (Truthy(applications[i].lastScan) ==> lines[i].lastScan == Scanned(applications[i].lastScan.value))
    {
      var application := applications[k];
      var lastScanTime := if !Truthy(application.lastScan) then Nil else Scanned(application.lastScan.value);
      lines := lines + [ApplicationLine(k + 1, application.applicationName, application.policyName, lastScanTime)];
    }
  }

  /** `add_applications_to_platform`: every application is posted, in order,
      whatever the replies, and the count is of the items `Created` holds
      for; a transport failure on the very first request leaves `response`
      unbound, and reading it ends the process with status 1. Before any
      request the signing keys are looked up, and without them nothing is
      posted and the process ends with status 1. */
  method AddApplicationsToPlatform(p: Profiles, active: string, applications: seq<Application>,
                                   template: ApplicationBody, replies: nat -> Reply<()>)
    returns (sent: seq<ApplicationBody>, count: nat, run: Run<()>)
    ensures run == Returns(()) || run == Exits(1)
    ensures run == Exits(1) <==> !SigningKeys(p, active) || (|applications| > 0 && replies(0).NoReply?)
    ensures run == Exits(1) ==>
              && count == 0
              && sent == (if SigningKeys(p, active) then [ApplicationJson(applications[0], template)] else [])
    ensures run == Returns(()) ==>
              && |sent| == |applications|
              && (forall i :: 0 <= i < |applications| ==> sent[i] == ApplicationJson(applications[i], template))
              && count == CreatedCount(replies, |applications|)
  {
    if !SigningKeys(p, active) {
      return [], 0, Exits(1);
    }
    sent := [];
    count := 0;
    var response: Option<Reply<()>> := None;
    for idx := 0 to |applications|
      invariant |sent| == idx
      invariant forall i :: 0 <= i < idx ==> sent[i] == ApplicationJson(applications[i], template)
      invariant count == CreatedCount(replies, idx)
      invariant idx > 0 ==> response == Latest(replies, idx - 1) && response.Some?
      invariant idx > 0 ==> !replies(0).NoReply?
      invariant idx == 0 ==> response == None
    {
      sent := sent + [ApplicationJson(applications[idx], template)];
      var reply := replies(idx);
      if !reply.NoReply? {
        response := Some(reply);
      }
      assert response == Latest(replies, idx);
      if response.None? {
        return sent, count, Exits(1);
      }
      if response.value.Ok? {
        count := count + 1;
      }
    }
    run := Returns(());
  }

  /** One round of `applications add`: the name prompt and the "add more"
      confirmation. */
  datatype ApplicationEntry = ApplicationEntry(name: string, addMore: bool)

  /** `applications add`: applications are collected, in entry order, with
      the recommended policy, no scan and an empty guid, until the user
      declines to add more; then all are posted. */
  method AddApplication(p: Profiles, active: string, entries: seq<ApplicationEntry>, template: ApplicationBody,
                        replies: nat -> Reply<()>)
    returns (applications: seq<Application>, sent: seq<ApplicationBody>, count: nat, run: Run<()>)
    ensures |applications| <= |entries|
    ensures forall i :: 0 <= i < |applications| ==>
              applications[i] == Application(entries[i].name, RecommendedPolicy, None, "")
    ensures run == Aborted <==> forall i :: 0 <= i < |entries| ==> entries[i].addMore
    ensures run == Aborted ==> |applications| == |entries| && sent == [] && count == 0
    ensures run != Aborted ==>
              && 1 <= |applications| && !entries[|applications| - 1].addMore
              && (forall i :: 0 <= i < |applications| - 1 ==> entries[i].addMore)
              && (run == Exits(1) <==> !SigningKeys(p, active) || replies(0).NoReply?)
              && (run == Exits(1) ==>
                    && count == 0
                    && sent == (if SigningKeys(p, active) then [ApplicationJson(applications[0], template)] else []))
              && (run != Exits(1) ==>
                    && run == Returns(())
                    && |sent| == |applications|
                    && (forall i :: 0 <= i < |applications| ==> sent[i] == ApplicationJson(applications[i], template))
                    && count == CreatedCount(replies, |applications|))
  {
    applications := [];
    while true
      invariant |applications| <= |entries|
      invariant forall i :: 0 <= i < |applications| ==>
                  applications[i] == Application(entries[i].name, RecommendedPolicy, None, "")
      invariant forall i :: 0 <= i < |applications| ==> entries[i].addMore
      decreases |entries| - |applications|
    {
      if |applications| == |entries| {
        return applications, [], 0, Aborted;
      }
      var entry := entries[|applications|];
      var application := Application(entry.name, RecommendedPolicy, None, "");
      applications := applications + [application];
      if !entry.addMore {
        sent, count, run := AddApplicationsToPlatform(p, active, applications, template, replies);
        return;
      }
    }
  }

  /** `applications delete`: the applications are fetched, then the
      delete-by-index loop runs on them. Each delete looks the signing keys up
      again, in the same store and under the same active name, so only the
      lookup of the fetch can fail. */
  method DeleteApplication(p: Profiles, active: string, listing: Reply<seq<ApplicationItem>>, indices: seq<int>,
                           attempts: seq<Attempt>)
    returns (rows: seq<Application>, end: Run<()>)
    ensures (!SigningKeys(p, active) || listing.NoReply?) ==> rows == [] && end == Exits(1)
    ensures SigningKeys(p, active) && listing.Failed? ==> Session(rows, end) == DeleteSession([], indices, attempts)
    ensures SigningKeys(p, active) && listing.Ok? &&
            (exists i :: 0 <= i < |listing.body| && listing.body[i].policyNames == []) ==>
              rows == [] && end == Exits(1)
    ensures SigningKeys(p, active) && listing.Ok? &&
            (forall i :: 0 <= i < |listing.body| ==> listing.body[i].policyNames != []) ==>
              exists fetched: seq<Application> ::
                && |fetched| == |listing.body|
                && (forall i :: 0 <= i < |fetched| ==> fetched[i] == ListedApplication(listing.body[i]))
                && Session(rows, end) == DeleteSession(fetched, indices, attempts)
  {
    var fetched := FetchApplications(p, active, listing);
    if !fetched.Returns? {
      return [], Exits(1);
    }
    rows, end := DeleteLoop(fetched.value, indices, attempts);
  }

  /** The `applications` group's entry check: without any credential profile
      it refuses to run; otherwise the active profile is confirmed,
      re-activating until the user accepts one. */
  method Applications(config: Config, setting: SettingsDict, confirms: seq<bool>, names: seq<string>)
    returns (run: Run<()>, declined: nat, picks: seq<string>)
    requires config.Valid()
    modifies setting
    ensures config.sections == [] ==> run == Exits(1) && declined == 0 && picks == []
    ensures config.sections != [] ==>
              Confirmation(run, declined, picks) == ConfirmLoop(config.State(), confirms, names)
    ensures setting.Value() ==
              old(setting.Value()).(activatedCredentials := LastPick(old(setting.activatedCredentials), picks))
    ensures setting.saved == old(setting.saved) + ActivationSaves(old(setting.Value()), picks)
    ensures run.Returns? && declined > 0 ==> setting.activatedCredentials in config.sections
  {
    if config.sections == [] {
      return Exits(1), 0, [];
    }
    run, declined, picks := ConfirmActiveProfile(config, setting, confirms, names);
  }
}
