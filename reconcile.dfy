/**
 * What the organization sync script asks of the backend, as functions of what it
 * knows: the call sequence of each per-organization action, which records go to
 * create, update or delete, and the organization-level events a trace holds.
 */
module Reconcile {
  import opened Common
  import opened Stamps
  import opened Normalize
  import opened Backend

  const Weekly := "WEEKLY"
  const DcatRdf := "dcat_rdf"
  const AdminRole := "admin"
  const LastSyncKey := "last_sync"
  const LastSyncHashKey := "last_sync_hash"
  const LastSyncDcatUrlKey := "last_sync_dcat_url"
  const UrlKey := "url"

  // ---------------------------------------------------------------------------
  // Counting calls and organization-level events in a trace

  function CountCalls(t: seq<Call>, p: Call -> bool): nat {
    if t == [] then 0 else CountCalls(t[..|t| - 1], p) + (if p(t[|t| - 1]) then 1 else 0)
  }

  /** Appending to a trace in two steps is appending once. */
  lemma AppendAssoc(t: seq<Call>, a: seq<Call>, b: seq<Call>)
    ensures t + a + b == t + (a + b)
  {
  }

  lemma {:induction false} CountCallsAppend(a: seq<Call>, b: seq<Call>, p: Call -> bool)
    ensures CountCalls(a + b, p) == CountCalls(a, p) + CountCalls(b, p)
  {
    if b == [] {
      assert a + b == a;
    } else {
      assert (a + b)[..|a + b| - 1] == a + b[..|b| - 1];
      CountCallsAppend(a, b[..|b| - 1], p);
    }
  }

  lemma {:induction false} CountCallsNone(t: seq<Call>, p: Call -> bool)
    requires forall i :: 0 <= i < |t| ==> !p(t[i])
    ensures CountCalls(t, p) == 0
  {
    if t != [] {
      CountCallsNone(t[..|t| - 1], p);
    }
  }

  lemma {:induction false} CountCallsRepeat(c: Call, n: nat, p: Call -> bool)
    ensures CountCalls(Repeat(c, n), p) == if p(c) then n else 0
  {
    if n > 0 {
      assert Repeat(c, n)[..n - 1] == Repeat(c, n - 1);
      CountCallsRepeat(c, n - 1, p);
    }
  }

  predicate IsUserInvite(c: Call) { c.UserInvite? }
  predicate IsSourcePatch(c: Call) { c.HarvestSourcePatch? }
  predicate IsJobCreate(c: Call) { c.HarvestJobCreate? }
  predicate IsPackageDelete(c: Call) { c.PackageDelete? }

  /** A call that creates, patches or deletes an organization. */
  datatype OrgEvent = Created(name: string) | Patched(name: string) | Deleted(name: string)

  function EventOf(c: Call): seq<OrgEvent> {
    match c
    case OrganizationCreate(n, _, _) => [Created(n)]
    case OrganizationPatch(n, _, _) => [Patched(n)]
    case OrganizationDelete(n) => [Deleted(n)]
    case _ => []
  }

  /** The organization-level calls of a trace, in order. */
  function OrgEvents(t: seq<Call>): seq<OrgEvent> {
    if t == [] then [] else OrgEvents(t[..|t| - 1]) + EventOf(t[|t| - 1])
  }

  lemma {:induction false} OrgEventsAppend(a: seq<Call>, b: seq<Call>)
    ensures OrgEvents(a + b) == OrgEvents(a) + OrgEvents(b)
  {
    if b == [] {
      assert a + b == a;
    } else {
      var init, last := b[..|b| - 1], b[|b| - 1];
      calc {
        OrgEvents(a + b);
        { assert a + b == (a + init) + [last]; }
        OrgEvents((a + init) + [last]);
        { OrgEventsSnoc(a + init, last); }
        OrgEvents(a + init) + EventOf(last);
        { OrgEventsAppend(a, init); }
        OrgEvents(a) + OrgEvents(init) + EventOf(last);
        { assert b == init + [last]; OrgEventsSnoc(init, last); }
        OrgEvents(a) + OrgEvents(b);
      }
    }
  }

  lemma OrgEventsSnoc(t: seq<Call>, c: Call)
    ensures OrgEvents(t + [c]) == OrgEvents(t) + EventOf(c)
  {
    assert (t + [c])[..|t|] == t;
  }

  lemma {:induction false} OrgEventsNone(t: seq<Call>)
    requires forall i :: 0 <= i < |t| ==> EventOf(t[i]) == []
    ensures OrgEvents(t) == []
  {
    if t != [] {
      OrgEventsNone(t[..|t| - 1]);
    }
  }

  /** One more organization event after a run of them. */
  lemma EventsStep(t0: seq<Call>, t1: seq<Call>, t2: seq<Call>, acc: seq<OrgEvent>, e: OrgEvent)
    requires OrgEvents(t1) == OrgEvents(t0) + acc && OrgEvents(t2) == OrgEvents(t1) + [e]
    ensures OrgEvents(t2) == OrgEvents(t0) + (acc + [e])
  {
  }

  function CreatedAll(os: seq<Org>): (r: seq<OrgEvent>)
    ensures |r| == |os| && forall i :: 0 <= i < |os| ==> r[i] == Created(os[i].name)
  {
    if os == [] then [] else CreatedAll(os[..|os| - 1]) + [Created(os[|os| - 1].name)]
  }

  function PatchedAll(os: seq<Org>): (r: seq<OrgEvent>)
    ensures |r| == |os| && forall i :: 0 <= i < |os| ==> r[i] == Patched(os[i].name)
  {
    if os == [] then [] else PatchedAll(os[..|os| - 1]) + [Patched(os[|os| - 1].name)]
  }

  function DeletedAll(os: seq<BackendOrg>): (r: seq<OrgEvent>)
    ensures |r| == |os| && forall i :: 0 <= i < |os| ==> r[i] == Deleted(os[i].name)
  {
    if os == [] then [] else DeletedAll(os[..|os| - 1]) + [Deleted(os[|os| - 1].name)]
  }

  // ---------------------------------------------------------------------------
  // _process_users

  predicate UsersIn(users: seq<nat>, emails: seq<string>) {
    forall i :: 0 <= i < |users| ==> users[i] < |emails|
  }

  /** Position of the first member whose email is `email`, or |users| if none. */
  function FirstMatch(users: seq<nat>, emails: seq<string>, email: string): (k: nat)
    requires UsersIn(users, emails)
    ensures k <= |users|
  {
    if users == [] then 0
    else if emails[users[0]] == email then 0
    else 1 + FirstMatch(users[1..], emails, email)
  }

  /** No member before FirstMatch has the email, and the one at it does. */
  lemma {:induction false} FirstMatchFirst(users: seq<nat>, emails: seq<string>, email: string)
    requires UsersIn(users, emails)
    ensures var k := FirstMatch(users, emails, email);
            && (forall j :: 0 <= j < k ==> emails[users[j]] != email)
            && (k < |users| ==> emails[users[k]] == email)
  {
    if users != [] && emails[users[0]] != email {
      FirstMatchFirst(users[1..], emails, email);
    }
  }

  function UserShows(users: seq<nat>): seq<Call>
  {
    seq(|users|, i requires 0 <= i < |users| => UserShow(users[i]))
  }

  /** Some member's email is `email`. */
  predicate HasMemberWithEmail(users: seq<nat>, emails: seq<string>, email: string)
    requires UsersIn(users, emails)
  {
    exists i :: 0 <= i < |users| && emails[users[i]] == email
  }

  /**
   * The calls of _process_users for an organization with these members: user_show
   * on each member up to the first whose email matches, then an admin invite when
   * none matched; nothing at all when the email is empty.
   */
  function UserCalls(users: seq<nat>, emails: seq<string>, email: string, group: string): seq<Call>
    requires UsersIn(users, emails)
  {
    if email == "" then []
    else
      var k := FirstMatch(users, emails, email);
      if k < |users| then UserShows(users[..k + 1])
      else UserShows(users) + [UserInvite(email, group, AdminRole)]
  }

  /** _process_users invites the admin: the email is set and no member has it. */
  predicate Invites(users: seq<nat>, emails: seq<string>, email: string)
    requires UsersIn(users, emails)
  {
    email != "" && !HasMemberWithEmail(users, emails, email)
  }

  /** The members after _process_users: the invited user joins at the end. */
  function UsersAfter(users: seq<nat>, emails: seq<string>, email: string): seq<nat>
    requires UsersIn(users, emails)
  {
    if Invites(users, emails, email) then users + [|emails|] else users
  }

  /** The users' emails after _process_users: an invite adds a user with the email. */
  function EmailsAfter(users: seq<nat>, emails: seq<string>, email: string): seq<string>
    requires UsersIn(users, emails)
  {
    if Invites(users, emails, email) then emails + [email] else emails
  }

  /**
   * After _process_users no member has been removed, every member is a known user,
   * and a set email belongs to some member.
   */
  lemma ProcessUsersOutcome(users: seq<nat>, emails: seq<string>, email: string)
    requires UsersIn(users, emails)
    ensures users <= UsersAfter(users, emails, email)
    ensures emails <= EmailsAfter(users, emails, email)
    ensures UsersIn(UsersAfter(users, emails, email), EmailsAfter(users, emails, email))
    ensures email != "" ==>
              HasMemberWithEmail(UsersAfter(users, emails, email), EmailsAfter(users, emails, email), email)
  {
    var us := UsersAfter(users, emails, email);
    var es := EmailsAfter(users, emails, email);
    if Invites(users, emails, email) {
      assert es[us[|users|]] == email;
    }
  }

  /** FirstMatch stops inside the members exactly when some member has the email. */
  lemma FirstMatchFound(users: seq<nat>, emails: seq<string>, email: string)
    requires UsersIn(users, emails)
    ensures FirstMatch(users, emails, email) < |users| <==> HasMemberWithEmail(users, emails, email)
  {
    FirstMatchFirst(users, emails, email);
  }

  /** The calls of _process_users are user_shows, then at most one invite, which comes last. */
  lemma UserCallsShape(users: seq<nat>, emails: seq<string>, email: string, group: string)
    requires UsersIn(users, emails)
    ensures var t := UserCalls(users, emails, email, group);
            if Invites(users, emails, email)
            then exists n: nat :: n <= |users| && t == UserShows(users[..n]) + [UserInvite(email, group, AdminRole)]
            else exists n: nat :: n <= |users| && t == UserShows(users[..n])
  {
    FirstMatchFound(users, emails, email);
    if email == "" {
      assert UserCalls(users, emails, email, group) == UserShows(users[..0]);
    } else if FirstMatch(users, emails, email) < |users| {
      var k := FirstMatch(users, emails, email);
      assert UserCalls(users, emails, email, group) == UserShows(users[..k + 1]);
    } else {
      assert users[..|users|] == users;
    }
  }

  /** user_shows alone: no invite, no organization event. */
  lemma ShowsOnly(ids: seq<nat>, c: Call)
    requires c.UserInvite?
    ensures CountCalls(UserShows(ids), IsUserInvite) == 0
    ensures c !in UserShows(ids)
    ensures OrgEvents(UserShows(ids)) == []
  {
    CountCallsNone(UserShows(ids), IsUserInvite);
    OrgEventsNone(UserShows(ids));
  }

  /** user_shows then one invite: exactly one invite, and no organization event. */
  lemma ShowsThenInvite(ids: seq<nat>, c: Call)
    requires c.UserInvite?
    ensures CountCalls(UserShows(ids) + [c], IsUserInvite) == 1
    ensures c in UserShows(ids) + [c]
    ensures OrgEvents(UserShows(ids) + [c]) == []
  {
    var shows := UserShows(ids);
    ShowsOnly(ids, c);
    CountCallsAppend(shows, [c], IsUserInvite);
    CountOne(c, IsUserInvite);
    OrgEventsAppend(shows, [c]);
    OrgEventsOne(c);
    assert (shows + [c])[|shows|] == c;
  }

  /** Exactly one admin invite iff the email is set and no member has it. */
  lemma ProcessUsersInvite(users: seq<nat>, emails: seq<string>, email: string, group: string)
    requires UsersIn(users, emails)
    ensures CountCalls(UserCalls(users, emails, email, group), IsUserInvite) ==
            if email != "" && !HasMemberWithEmail(users, emails, email) then 1 else 0
    ensures UserInvite(email, group, AdminRole) in UserCalls(users, emails, email, group) <==>
            email != "" && !HasMemberWithEmail(users, emails, email)
  {
    var c := UserInvite(email, group, AdminRole);
    UserCallsShape(users, emails, email, group);
    if Invites(users, emails, email) {
      var n: nat :| n <= |users| && UserCalls(users, emails, email, group) == UserShows(users[..n]) + [c];
      ShowsThenInvite(users[..n], c);
    } else {
      var n: nat :| n <= |users| && UserCalls(users, emails, email, group) == UserShows(users[..n]);
      ShowsOnly(users[..n], c);
    }
  }

  /** _process_users never creates, patches or deletes an organization. */
  lemma UserCallsQuiet(users: seq<nat>, emails: seq<string>, email: string, group: string)
    requires UsersIn(users, emails)
    ensures OrgEvents(UserCalls(users, emails, email, group)) == []
  {
    var c := UserInvite(email, group, AdminRole);
    UserCallsShape(users, emails, email, group);
    if Invites(users, emails, email) {
      var n: nat :| n <= |users| && UserCalls(users, emails, email, group) == UserShows(users[..n]) + [c];
      ShowsThenInvite(users[..n], c);
    } else {
      var n: nat :| n <= |users| && UserCalls(users, emails, email, group) == UserShows(users[..n]);
      ShowsOnly(users[..n], c);
    }
  }

  // ---------------------------------------------------------------------------
  // create_organization

  function CreateExtras(d: Org, stamp: string, h: string): seq<Extra> {
    [Extra(UrlKey, d.url), Extra(LastSyncKey, stamp), Extra(LastSyncHashKey, h),
     Extra(LastSyncDcatUrlKey, d.dcatUrl)]
  }

  /** What create_organization does about the harvest source once harvest_source_show answered. */
  function SourceCalls(d: Org, sourceFound: bool): seq<Call> {
    if sourceFound then [HarvestSourcePatch(d.name, d.name, d.dcatUrl)]
    else [HarvestSourceCreate(d.name, d.title, d.dcatUrl, d.name, Weekly, DcatRdf), HarvestJobCreate(d.name)]
  }

  /**
   * The calls after a successful organization_create, whose one member is the
   * calling user `caller`.
   */
  function CreateFollowUp(d: Org, sourceFound: bool, emails: seq<string>, caller: nat): seq<Call>
    requires caller < |emails|
  {
    [HarvestSourceShow(Some(d.name), d.dcatUrl)] + SourceCalls(d, sourceFound) + UserCalls([caller], emails, d.email, d.name)
  }

  /**
   * The calls of create_organization. `accepted`: organization_create did not
   * raise ValidationError; `sourceFound`: harvest_source_show found the source.
   */
  function CreateCalls(d: Org, stamp: string, h: string, accepted: bool, sourceFound: bool,
                       emails: seq<string>, caller: nat): seq<Call>
    requires caller < |emails|
  {
    [OrganizationCreate(d.name, d.title, CreateExtras(d, stamp, h))] +
    (if accepted then CreateFollowUp(d, sourceFound, emails, caller) else [])
  }

  lemma CountOne(c: Call, p: Call -> bool)
    ensures CountCalls([c], p) == if p(c) then 1 else 0
  {
    assert [c][..0] == [];
  }

  lemma OrgEventsOne(c: Call)
    ensures OrgEvents([c]) == EventOf(c)
  {
    assert [c][..0] == [];
  }

  /** organization_create is the one organization event of a create, whatever follows it. */
  lemma CreateEvents(d: Org, stamp: string, h: string, accepted: bool, sourceFound: bool, emails: seq<string>,
                     caller: nat)
    requires caller < |emails|
    ensures OrgEvents(CreateCalls(d, stamp, h, accepted, sourceFound, emails, caller)) == [Created(d.name)]
  {
    var head := [OrganizationCreate(d.name, d.title, CreateExtras(d, stamp, h))];
    OrgEventsOne(head[0]);
    if accepted {
      var rest := CreateFollowUp(d, sourceFound, emails, caller);
      FollowUpQuiet(d, sourceFound, emails, caller);
      OrgEventsAppend(head, rest);
    } else {
      assert CreateCalls(d, stamp, h, accepted, sourceFound, emails, caller) == head;
    }
  }

  lemma FollowUpQuiet(d: Org, sourceFound: bool, emails: seq<string>, caller: nat)
    requires caller < |emails|
    ensures OrgEvents(CreateFollowUp(d, sourceFound, emails, caller)) == []
  {
    var show := HarvestSourceShow(Some(d.name), d.dcatUrl);
    var pre := [show] + SourceCalls(d, sourceFound);
    var users := UserCalls([caller], emails, d.email, d.name);
    assert OrgEvents(pre) == [] by {
      ShowSourceQuiet(show, d, sourceFound);
    }
    assert OrgEvents(users) == [] by {
      UserCallsQuiet([caller], emails, d.email, d.name);
    }
    OrgEventsAppend(pre, users);
  }

  /** A harvest_source_show, then the source calls: no organization event. */
  lemma ShowSourceQuiet(show: Call, d: Org, sourceFound: bool)
    requires show.HarvestSourceShow?
    ensures OrgEvents([show] + SourceCalls(d, sourceFound)) == []
  {
    OrgEventsAppend([show], SourceCalls(d, sourceFound));
    OrgEventsOne(show);
    SourceCallsQuiet(d, sourceFound);
  }

  lemma SourceCallsQuiet(d: Org, sourceFound: bool)
    ensures OrgEvents(SourceCalls(d, sourceFound)) == []
  {
    OrgEventsNone(SourceCalls(d, sourceFound));
  }

  /**
   * A refused create stops after organization_create; otherwise an existing source is
   * patched and no job is created, while a missing one is created WEEKLY as dcat_rdf
   * and followed by exactly one harvest job.
   */
  lemma CreateSourceOutcome(d: Org, stamp: string, h: string, accepted: bool, sourceFound: bool,
                            emails: seq<string>, caller: nat)
    requires caller < |emails|
    ensures !accepted ==> |CreateCalls(d, stamp, h, accepted, sourceFound, emails, caller)| == 1
    ensures accepted && sourceFound ==>
              CreateCalls(d, stamp, h, accepted, sourceFound, emails, caller)[2] == HarvestSourcePatch(d.name, d.name, d.dcatUrl)
    ensures accepted && !sourceFound ==>
              && CreateCalls(d, stamp, h, accepted, sourceFound, emails, caller)[2] ==
                 HarvestSourceCreate(d.name, d.title, d.dcatUrl, d.name, Weekly, DcatRdf)
              && CreateCalls(d, stamp, h, accepted, sourceFound, emails, caller)[3] == HarvestJobCreate(d.name)
    ensures CountCalls(CreateCalls(d, stamp, h, accepted, sourceFound, emails, caller), IsJobCreate) ==
              if accepted && !sourceFound then 1 else 0
  {
    var head := [OrganizationCreate(d.name, d.title, CreateExtras(d, stamp, h))];
    var t := CreateCalls(d, stamp, h, accepted, sourceFound, emails, caller);
    if accepted {
      var show := [HarvestSourceShow(Some(d.name), d.dcatUrl)];
      var src := SourceCalls(d, sourceFound);
      var users := UserCalls([caller], emails, d.email, d.name);
      assert t == head + show + src + users;
      assert t[2] == src[0];
      assert !sourceFound ==> t[3] == src[1];
      assert CountCalls(head + show + src, IsJobCreate) == if sourceFound then 0 else 1 by {
        SourceJobs(d, sourceFound, head + show);
      }
      assert CountCalls(users, IsJobCreate) == 0 by {
        UserCallsQuiet([caller], emails, d.email, d.name);
        CountCallsNone(users, IsJobCreate);
      }
      CountCallsAppend(head + show + src, users, IsJobCreate);
    } else {
      assert t == head;
      CountOne(head[0], IsJobCreate);
    }
  }

  /** Two calls that create no job, then the source calls: a job exactly when the source was missing. */
  lemma SourceJobs(d: Org, sourceFound: bool, pre: seq<Call>)
    requires |pre| == 2 && !pre[0].HarvestJobCreate? && !pre[1].HarvestJobCreate?
    ensures CountCalls(pre + SourceCalls(d, sourceFound), IsJobCreate) == if sourceFound then 0 else 1
  {
    var src := SourceCalls(d, sourceFound);
    assert CountCalls(pre, IsJobCreate) == 0 by {
      CountCallsNone(pre, IsJobCreate);
    }
    assert CountCalls(src, IsJobCreate) == if sourceFound then 0 else 1 by {
      if sourceFound {
        CountOne(src[0], IsJobCreate);
      } else {
        assert src == [src[0]] + [src[1]];
        CountCallsAppend([src[0]], [src[1]], IsJobCreate);
        CountOne(src[0], IsJobCreate);
        CountOne(src[1], IsJobCreate);
      }
    }
    CountCallsAppend(pre, src, IsJobCreate);
  }

  /** The one member of a new organization has the email exactly when its user does. */
  lemma OneMember(caller: nat, emails: seq<string>, email: string)
    requires caller < |emails|
    ensures HasMemberWithEmail([caller], emails, email) <==> emails[caller] == email
  {
    assert [caller][0] == caller;
  }

  /**
   * A successful create sends one admin invite when the record has an email that
   * is not the calling user's own; a refused one sends none.
   */
  lemma CreateInvites(d: Org, stamp: string, h: string, accepted: bool, sourceFound: bool, emails: seq<string>,
                      caller: nat)
    requires caller < |emails|
    ensures CountCalls(CreateCalls(d, stamp, h, accepted, sourceFound, emails, caller), IsUserInvite) ==
              if accepted && d.email != "" && emails[caller] != d.email then 1 else 0
  {
    var head := [OrganizationCreate(d.name, d.title, CreateExtras(d, stamp, h))];
    CountOne(head[0], IsUserInvite);
    if accepted {
      var pre := [HarvestSourceShow(Some(d.name), d.dcatUrl)] + SourceCalls(d, sourceFound);
      var users := UserCalls([caller], emails, d.email, d.name);
      assert CountCalls(users, IsUserInvite) == if d.email != "" && emails[caller] != d.email then 1 else 0 by {
        ProcessUsersInvite([caller], emails, d.email, d.name);
        OneMember(caller, emails, d.email);
      }
      assert CountCalls(pre, IsUserInvite) == 0 by {
        CountCallsNone(pre, IsUserInvite);
      }
      assert CreateCalls(d, stamp, h, accepted, sourceFound, emails, caller) == head + pre + users;
      CountCallsAppend(head + pre, users, IsUserInvite);
      CountCallsAppend(head, pre, IsUserInvite);
    } else {
      assert CreateCalls(d, stamp, h, accepted, sourceFound, emails, caller) == head;
    }
  }

  // ---------------------------------------------------------------------------
  // update_organization

  /** How many stored last_sync_hash extras differ from `h`. */
  function HashMismatches(es: seq<Extra>, h: string): nat {
    if es == [] then 0
    else HashMismatches(es[..|es| - 1], h) +
         (if es[|es| - 1].key == LastSyncHashKey && es[|es| - 1].value != h then 1 else 0)
  }

  function Mismatches(extras: Option<seq<Extra>>, h: string): nat {
    if extras.None? then 0 else HashMismatches(extras.value, h)
  }

  /** A stored last_sync_hash exists and differs from `h`. */
  predicate StoredHashDiffers(extras: Option<seq<Extra>>, h: string) {
    extras.Some? &&
    exists i :: 0 <= i < |extras.value| && extras.value[i].key == LastSyncHashKey && extras.value[i].value != h
  }

  /** No key appears twice among the extras. */
  predicate UniqueKeys(es: seq<Extra>) {
    forall i, j :: 0 <= i < j < |es| ==> es[i].key != es[j].key
  }

  lemma {:induction false} HashMismatchesPositive(es: seq<Extra>, h: string)
    ensures HashMismatches(es, h) > 0 <==> StoredHashDiffers(Some(es), h)
    ensures UniqueKeys(es) ==> HashMismatches(es, h) <= 1
  {
    if es != [] {
      var init := es[..|es| - 1];
      HashMismatchesPositive(init, h);
      if StoredHashDiffers(Some(init), h) {
        var i :| 0 <= i < |init| && init[i].key == LastSyncHashKey && init[i].value != h;
        assert es[i] == init[i];
      }
      if UniqueKeys(es) {
        assert UniqueKeys(init);
      }
    }
  }

  /** The extras organization_patch receives: a fresh last_sync, then one url per mismatch. */
  function UpdateExtras(d: Org, stamp: string, h: string, k: nat): seq<Extra> {
    [Extra(LastSyncKey, stamp), Extra(LastSyncHashKey, h), Extra(LastSyncDcatUrlKey, d.dcatUrl)] +
    Repeat(Extra(UrlKey, d.url), k)
  }

  /** One harvest_source_patch per differing stored hash. */
  function SourcePatches(d: Org, k: nat): seq<Call> {
    Repeat(HarvestSourcePatch(d.name, d.name, d.dcatUrl), k)
  }

  /** The closing organization_patch; the title goes along only after a detected change. */
  function FinalPatch(d: Org, stamp: string, h: string, k: nat): Call {
    OrganizationPatch(d.name, if k > 0 then Some(d.title) else None, UpdateExtras(d, stamp, h, k))
  }

  /** The calls of update_organization for the organization record `org` it shows. */
  function UpdateCalls(d: Org, stamp: string, h: string, org: BackendOrg, emails: seq<string>): seq<Call>
    requires UsersIn(org.users, emails)
  {
    [OrganizationShow(d.name)] + UpdateTail(d, stamp, h, org, emails)
  }

  /** The calls of update_organization after organization_show returned `org`. */
  function UpdateTail(d: Org, stamp: string, h: string, org: BackendOrg, emails: seq<string>): seq<Call>
    requires UsersIn(org.users, emails)
  {
    var k := Mismatches(org.extras, h);
    SourcePatches(d, k) + UserCalls(org.users, emails, d.email, d.name) + [FinalPatch(d, stamp, h, k)]
  }

  /** The calls after organization_show depend only on the extras and members it shows. */
  lemma UpdateTailOfShown(d: Org, stamp: string, h: string, shown: BackendOrg, stored: BackendOrg,
                          emails: seq<string>)
    requires shown.extras == stored.extras && shown.users == stored.users && UsersIn(stored.users, emails)
    ensures UpdateTail(d, stamp, h, shown, emails) == UpdateTail(d, stamp, h, stored, emails)
  {
  }

  /** Every update ends in exactly one organization_patch, carrying a fresh last_sync. */
  lemma UpdateEvents(d: Org, stamp: string, h: string, org: BackendOrg, emails: seq<string>)
    requires UsersIn(org.users, emails)
    ensures OrgEvents(UpdateCalls(d, stamp, h, org, emails)) == [Patched(d.name)]
    ensures var t := UpdateCalls(d, stamp, h, org, emails);
              t[|t| - 1].OrganizationPatch? && t[|t| - 1].extras[0] == Extra(LastSyncKey, stamp)
  {
    var tail := UpdateTail(d, stamp, h, org, emails);
    assert OrgEvents(tail) == [Patched(d.name)] by {
      UpdateTailEvents(d, stamp, h, org, emails);
    }
    assert OrgEvents([OrganizationShow(d.name)]) == [] by {
      OrgEventsOne(OrganizationShow(d.name));
    }
    OrgEventsAppend([OrganizationShow(d.name)], tail);
  }

  lemma UpdateTailEvents(d: Org, stamp: string, h: string, org: BackendOrg, emails: seq<string>)
    requires UsersIn(org.users, emails)
    ensures OrgEvents(UpdateTail(d, stamp, h, org, emails)) == [Patched(d.name)]
  {
    var k := Mismatches(org.extras, h);
    var patches := SourcePatches(d, k);
    var users := UserCalls(org.users, emails, d.email, d.name);
    var last := [FinalPatch(d, stamp, h, k)];
    assert OrgEvents(patches + users) == [] by {
      SourcePatchesQuiet(d, k);
      UserCallsQuiet(org.users, emails, d.email, d.name);
      OrgEventsAppend(patches, users);
    }
    assert OrgEvents(last) == [Patched(d.name)] by {
      OrgEventsOne(last[0]);
    }
    assert UpdateTail(d, stamp, h, org, emails) == patches + users + last;
    OrgEventsAppend(patches + users, last);
  }

  lemma SourcePatchesQuiet(d: Org, k: nat)
    ensures OrgEvents(SourcePatches(d, k)) == []
  {
    RepeatAll(HarvestSourcePatch(d.name, d.name, d.dcatUrl), k);
    OrgEventsNone(SourcePatches(d, k));
  }

  /**
   * The harvest source is patched, and the title sent, only when a stored
   * last_sync_hash exists and differs from the new hash; at most once when the
   * extras keys are unique.
   */
  lemma UpdateChangeDetection(d: Org, stamp: string, h: string, org: BackendOrg, emails: seq<string>)
    requires UsersIn(org.users, emails)
    ensures CountCalls(UpdateCalls(d, stamp, h, org, emails), IsSourcePatch) > 0 <==> StoredHashDiffers(org.extras, h)
    ensures var t := UpdateCalls(d, stamp, h, org, emails);
              t[|t| - 1].newTitle.Some? <==> StoredHashDiffers(org.extras, h)
    ensures org.extras.Some? && UniqueKeys(org.extras.value) ==>
              CountCalls(UpdateCalls(d, stamp, h, org, emails), IsSourcePatch) <= 1
  {
    if org.extras.Some? {
      HashMismatchesPositive(org.extras.value, h);
    }
    UpdateSourcePatchCount(d, stamp, h, org, emails);
  }

  /** An update issues one harvest_source_patch per differing stored hash, and ends in the final patch. */
  lemma UpdateSourcePatchCount(d: Org, stamp: string, h: string, org: BackendOrg, emails: seq<string>)
    requires UsersIn(org.users, emails)
    ensures CountCalls(UpdateCalls(d, stamp, h, org, emails), IsSourcePatch) == Mismatches(org.extras, h)
    ensures var t := UpdateCalls(d, stamp, h, org, emails);
              t[|t| - 1] == FinalPatch(d, stamp, h, Mismatches(org.extras, h))
  {
    var k := Mismatches(org.extras, h);
    var show := [OrganizationShow(d.name)];
    var patches := SourcePatches(d, k);
    var users := UserCalls(org.users, emails, d.email, d.name);
    var last := [FinalPatch(d, stamp, h, k)];
    assert UpdateCalls(d, stamp, h, org, emails) == show + patches + users + last;
    UserCallsNoPatch(org.users, emails, d.email, d.name);
    CountFour(show, patches, users, last, IsSourcePatch);
    CountOne(show[0], IsSourcePatch);
    CountOne(last[0], IsSourcePatch);
    CountCallsRepeat(HarvestSourcePatch(d.name, d.name, d.dcatUrl), k, IsSourcePatch);
  }

  /** _process_users patches no harvest source. */
  lemma UserCallsNoPatch(users: seq<nat>, emails: seq<string>, email: string, group: string)
    requires UsersIn(users, emails)
    ensures CountCalls(UserCalls(users, emails, email, group), IsSourcePatch) == 0
  {
    CountCallsNone(UserCalls(users, emails, email, group), IsSourcePatch);
  }

  lemma CountFour(a: seq<Call>, b: seq<Call>, c: seq<Call>, e: seq<Call>, p: Call -> bool)
    ensures CountCalls(a + b + c + e, p) == CountCalls(a, p) + CountCalls(b, p) + CountCalls(c, p) + CountCalls(e, p)
  {
    CountCallsAppend(a + b + c, e, p);
    CountCallsAppend(a + b, c, p);
    CountCallsAppend(a, b, p);
  }

  /** The hash create_organization stores is the one update_organization compares: no change follows. */
  lemma CreateThenUpdateUnchanged(d: Org, stamp: string, hash: Org -> string)
    ensures !StoredHashDiffers(Some(CreateExtras(d, stamp, hash(d))), hash(d))
    ensures Mismatches(Some(CreateExtras(d, stamp, hash(d))), hash(d)) == 0
  {
    HashMismatchesPositive(CreateExtras(d, stamp, hash(d)), hash(d));
  }

  // ---------------------------------------------------------------------------
  // delete_organization

  /** The value of the last extra with this key (the loop keeps overwriting). */
  function LastValue(es: seq<Extra>, key: string): (r: Option<string>)
    ensures r.None? <==> forall i :: 0 <= i < |es| ==> es[i].key != key
    ensures r.Some? ==> exists i :: 0 <= i < |es| && es[i].key == key && es[i].value == r.value &&
                                    forall j :: i < j < |es| ==> es[j].key != key
  {
    if es == [] then None
    else if es[|es| - 1].key == key then Some(es[|es| - 1].value)
    else LastValue(es[..|es| - 1], key)
  }

  /** Python's '{0}'.format(value) of an optional string: a missing value prints as None. */
  function PyStr(o: Option<string>): string {
    if o.Some? then o.value else "None"
  }

  function ExtrasOf(o: BackendOrg): seq<Extra> {
    if o.extras.Some? then o.extras.value else []
  }

  /** The harvest URL a hard delete looks the source up by. */
  function DeleteDcatUrl(data: BackendOrg): string {
    match LastValue(ExtrasOf(data), LastSyncDcatUrlKey)
    case Some(v) => v
    case None => DefaultDcatUrl(PyStr(data.url))
  }

  function PackageDeletes(names: seq<string>): (t: seq<Call>)
    ensures |t| == |names| && forall i :: 0 <= i < |names| ==> t[i] == PackageDelete(names[i])
  {
    seq(|names|, i requires 0 <= i < |names| => PackageDelete(names[i]))
  }

  /** The package a found harvest source takes along: the one named after the organization. */
  function SourcePackage(data: BackendOrg, source: Option<HarvestSource>): seq<string> {
    if source.Some? then [data.name] else []
  }

  /** Clearing and deleting the harvest source harvest_source_show found. */
  function SourceRemoval(data: BackendOrg, source: Option<HarvestSource>): seq<Call> {
    if source.Some? then [HarvestSourceClear(source.value.name), HarvestSourceDelete(source.value.name),
                          PackageDelete(data.name)]
    else []
  }

  /** Deleting the packages organization_show lists, only when the record counts some. */
  function PackageRemoval(data: BackendOrg, listed: seq<string>): seq<Call> {
    if |data.packages| > 0 then [OrganizationShow(data.name)] + PackageDeletes(listed) else []
  }

  /**
   * The calls of delete_organization for the listed record `data`: `source` is what
   * harvest_source_show found, `listed` the packages organization_show then lists.
   */
  function DeleteCalls(data: BackendOrg, soft: bool, source: Option<HarvestSource>,
                       listed: seq<string>): seq<Call>
  {
    (if soft then [] else HardDeletePrefix(data, source, listed)) + [OrganizationDelete(data.name)]
  }

  /** What a hard delete does before organization_delete. */
  function HardDeletePrefix(data: BackendOrg, source: Option<HarvestSource>, listed: seq<string>): seq<Call> {
    [HarvestSourceShow(None, DeleteDcatUrl(data))] + SourceRemoval(data, source) + PackageRemoval(data, listed)
  }

  /**
   * organization_delete is the final call and the only organization event of a
   * delete; a soft delete issues nothing else.
   */
  lemma DeleteEvents(data: BackendOrg, soft: bool, source: Option<HarvestSource>, listed: seq<string>)
    ensures OrgEvents(DeleteCalls(data, soft, source, listed)) == [Deleted(data.name)]
    ensures var t := DeleteCalls(data, soft, source, listed); t[|t| - 1] == OrganizationDelete(data.name)
    ensures soft ==> DeleteCalls(data, soft, source, listed) == [OrganizationDelete(data.name)]
  {
    var c := OrganizationDelete(data.name);
    var pre: seq<Call> := [];
    if !soft {
      pre := HardDeletePrefix(data, source, listed);
      PrefixQuiet(data, source, listed);
    }
    assert DeleteCalls(data, soft, source, listed) == pre + [c];
    QuietThenOne(pre, c);
  }

  /** A trace with no organization event, then one call. */
  lemma QuietThenOne(pre: seq<Call>, c: Call)
    requires OrgEvents(pre) == []
    ensures OrgEvents(pre + [c]) == EventOf(c)
    ensures (pre + [c])[|pre + [c]| - 1] == c
  {
    assert (pre + [c])[..|pre + [c]| - 1] == pre;
  }

  lemma PrefixQuiet(data: BackendOrg, source: Option<HarvestSource>, listed: seq<string>)
    ensures OrgEvents(HardDeletePrefix(data, source, listed)) == []
  {
    var show := [HarvestSourceShow(None, DeleteDcatUrl(data))];
    assert OrgEvents(show + SourceRemoval(data, source)) == [] by {
      ShowRemovalQuiet(show[0], data, source);
    }
    RemovalQuiet(data, source, listed);
    OrgEventsAppend(show + SourceRemoval(data, source), PackageRemoval(data, listed));
  }

  lemma ShowRemovalQuiet(show: Call, data: BackendOrg, source: Option<HarvestSource>)
    requires show.HarvestSourceShow?
    ensures OrgEvents([show] + SourceRemoval(data, source)) == []
  {
    OrgEventsAppend([show], SourceRemoval(data, source));
    OrgEventsOne(show);
    RemovalQuiet(data, source, []);
  }

  lemma RemovalQuiet(data: BackendOrg, source: Option<HarvestSource>, listed: seq<string>)
    ensures OrgEvents(SourceRemoval(data, source)) == []
    ensures OrgEvents(PackageRemoval(data, listed)) == []
  {
    OrgEventsNone(SourceRemoval(data, source));
    OrgEventsNone(PackageRemoval(data, listed));
  }

  /**
   * A hard delete clears a found source before deleting it; packages are deleted
   * only when the record counts some, and each package organization_show lists is
   * deleted before the organization.
   */
  lemma HardDeleteOrder(data: BackendOrg, source: Option<HarvestSource>, listed: seq<string>)
    ensures var t := DeleteCalls(data, false, source, listed);
      && t[0] == HarvestSourceShow(None, DeleteDcatUrl(data))
      && (source.Some? ==> t[1] == HarvestSourceClear(source.value.name) &&
                           t[2] == HarvestSourceDelete(source.value.name))
      && (|data.packages| > 0 ==>
            forall p :: p in listed ==> exists i :: 0 <= i < |t| - 1 && t[i] == PackageDelete(p))
  {
    var t := DeleteCalls(data, false, source, listed);
    var show := [HarvestSourceShow(None, DeleteDcatUrl(data))];
    var src := SourceRemoval(data, source);
    var pk := PackageRemoval(data, listed);
    assert t == show + src + pk + [OrganizationDelete(data.name)];
    if |data.packages| > 0 {
      forall p | p in listed
        ensures exists i :: 0 <= i < |t| - 1 && t[i] == PackageDelete(p)
      {
        var j :| 0 <= j < |listed| && listed[j] == p;
        assert t[|show + src| + 1 + j] == PackageDelete(p);
      }
    }
  }

  /**
   * A hard delete removes one package for a found source (the package named after
   * the organization) and, when the record counts packages, each listed one.
   */
  lemma HardDeletePackageCount(data: BackendOrg, source: Option<HarvestSource>, listed: seq<string>)
    ensures CountCalls(DeleteCalls(data, false, source, listed), IsPackageDelete) ==
              (if source.Some? then 1 else 0) + (if |data.packages| > 0 then |listed| else 0)
  {
    var show := [HarvestSourceShow(None, DeleteDcatUrl(data))];
    var src := SourceRemoval(data, source);
    var pk := PackageRemoval(data, listed);
    var last := [OrganizationDelete(data.name)];
    assert CountCalls(show + src, IsPackageDelete) == (if source.Some? then 1 else 0) by {
      CountCallsAppend(show, src, IsPackageDelete);
      CountOne(show[0], IsPackageDelete);
      SourceRemovalCount(data, source);
    }
    assert CountCalls(show + src + pk, IsPackageDelete) ==
             (if source.Some? then 1 else 0) + (if |data.packages| > 0 then |listed| else 0) by {
      CountCallsAppend(show + src, pk, IsPackageDelete);
      PackageRemovalCount(data, listed);
    }
    assert DeleteCalls(data, false, source, listed) == show + src + pk + last;
    CountCallsAppend(show + src + pk, last, IsPackageDelete);
    CountOne(last[0], IsPackageDelete);
  }

  lemma SourceRemovalCount(data: BackendOrg, source: Option<HarvestSource>)
    ensures CountCalls(SourceRemoval(data, source), IsPackageDelete) == if source.Some? then 1 else 0
  {
    var src := SourceRemoval(data, source);
    if source.Some? {
      assert src == [src[0], src[1]] + [src[2]];
      assert CountCalls([src[0], src[1]], IsPackageDelete) == 0 by {
        CountCallsNone([src[0], src[1]], IsPackageDelete);
      }
      CountCallsAppend([src[0], src[1]], [src[2]], IsPackageDelete);
      CountOne(src[2], IsPackageDelete);
    }
  }

  lemma PackageRemovalCount(data: BackendOrg, listed: seq<string>)
    ensures CountCalls(PackageRemoval(data, listed), IsPackageDelete) == if |data.packages| > 0 then |listed| else 0
  {
    if |data.packages| > 0 {
      CountCallsAppend([OrganizationShow(data.name)], PackageDeletes(listed), IsPackageDelete);
      CountOne(OrganizationShow(data.name), IsPackageDelete);
      PackageDeletesCount(listed);
    }
  }

  lemma {:induction false} PackageDeletesCount(names: seq<string>)
    ensures CountCalls(PackageDeletes(names), IsPackageDelete) == |names|
  {
    if names != [] {
      var init := names[..|names| - 1];
      assert PackageDeletes(names)[..|names| - 1] == PackageDeletes(init);
      PackageDeletesCount(init);
    }
  }

  // ---------------------------------------------------------------------------
  // The delete list of `sync`

  /**
   * The loop over one organization's extras: `found` says a last_sync extra was
   * seen. Some(true): delete it; Some(false): keep it; None: a last_sync value that
   * parse_datetime rejects, which raises out of `sync`.
   */
  function EligibleFrom(es: seq<Extra>, today: Date, found: bool): Option<bool>
  {
    if es == [] then Some(!found)
    else if es[0].key != LastSyncKey then EligibleFrom(es[1..], today, found)
    else match ParseStamp(es[0].value)
      case None => None
      case Some(t) => if DateBefore(t.date, today) then Some(true) else EligibleFrom(es[1..], today, true)
  }

  function DeleteEligible(o: BackendOrg, today: Date): Option<bool> {
    if o.extras.None? then Some(true) else EligibleFrom(o.extras.value, today, false)
  }

  predicate HasKey(es: seq<Extra>, key: string) {
    exists i :: 0 <= i < |es| && es[i].key == key
  }

  /** Every last_sync value parses. */
  predicate StampsParse(es: seq<Extra>) {
    forall i :: 0 <= i < |es| && es[i].key == LastSyncKey ==> ParseStamp(es[i].value).Some?
  }

  /** Some last_sync value parses to a date strictly before `today`. */
  predicate SyncedBefore(es: seq<Extra>, today: Date)
    requires StampsParse(es)
  {
    exists i :: 0 <= i < |es| && es[i].key == LastSyncKey && DateBefore(ParseStamp(es[i].value).value.date, today)
  }

  lemma {:induction false} EligibleFromIff(es: seq<Extra>, today: Date, found: bool)
    requires StampsParse(es)
    ensures EligibleFrom(es, today, found) ==
            Some((!found && !HasKey(es, LastSyncKey)) || SyncedBefore(es, today))
  {
    if es != [] {
      ExtrasTail(es, today);
      EligibleFromIff(es[1..], today, found || es[0].key == LastSyncKey);
    }
  }

  /** How the last_sync facts of a list follow from its head and its tail. */
  lemma ExtrasTail(es: seq<Extra>, today: Date)
    requires es != [] && StampsParse(es)
    ensures StampsParse(es[1..])
    ensures HasKey(es, LastSyncKey) <==> es[0].key == LastSyncKey || HasKey(es[1..], LastSyncKey)
    ensures SyncedBefore(es, today) <==>
              (es[0].key == LastSyncKey && DateBefore(ParseStamp(es[0].value).value.date, today)) ||
              SyncedBefore(es[1..], today)
  {
    TailParses(es);
    TailHasKey(es);
    TailSyncedBefore(es, today);
  }

  lemma TailParses(es: seq<Extra>)
    requires es != [] && StampsParse(es)
    ensures StampsParse(es[1..])
  {
    var rest := es[1..];
    forall i | 0 <= i < |rest| && rest[i].key == LastSyncKey ensures ParseStamp(rest[i].value).Some? {
      assert rest[i] == es[i + 1];
    }
  }

  lemma TailHasKey(es: seq<Extra>)
    requires es != []
    ensures HasKey(es, LastSyncKey) <==> es[0].key == LastSyncKey || HasKey(es[1..], LastSyncKey)
  {
    var rest := es[1..];
    if HasKey(es, LastSyncKey) && es[0].key != LastSyncKey {
      var i :| 0 <= i < |es| && es[i].key == LastSyncKey;
      assert rest[i - 1] == es[i];
    }
    if HasKey(rest, LastSyncKey) {
      var i :| 0 <= i < |rest| && rest[i].key == LastSyncKey;
      assert es[i + 1] == rest[i];
    }
  }

  lemma TailSyncedBefore(es: seq<Extra>, today: Date)
    requires es != [] && StampsParse(es) && StampsParse(es[1..])
    ensures SyncedBefore(es, today) <==>
              (es[0].key == LastSyncKey && DateBefore(ParseStamp(es[0].value).value.date, today)) ||
              SyncedBefore(es[1..], today)
  {
    var rest := es[1..];
    if SyncedBefore(rest, today) {
      var i :| 0 <= i < |rest| && rest[i].key == LastSyncKey &&
               DateBefore(ParseStamp(rest[i].value).value.date, today);
      assert es[i + 1] == rest[i];
    }
    var headBefore := es[0].key == LastSyncKey && DateBefore(ParseStamp(es[0].value).value.date, today);
    if SyncedBefore(es, today) && !headBefore {
      var i :| 0 <= i < |es| && es[i].key == LastSyncKey && DateBefore(ParseStamp(es[i].value).value.date, today);
      assert i > 0 && rest[i - 1] == es[i];
    }
  }

  /**
   * The delete rule: an organization is deleted iff it has no extras, no last_sync
   * extra, or a last_sync date strictly before today.
   */
  lemma DeleteEligibleIff(o: BackendOrg, today: Date)
    requires o.extras.Some? ==> StampsParse(o.extras.value)
    ensures DeleteEligible(o, today).Some?
    ensures DeleteEligible(o, today).value <==>
            o.extras.None? || !HasKey(o.extras.value, LastSyncKey) || SyncedBefore(o.extras.value, today)
  {
    if o.extras.Some? {
      EligibleFromIff(o.extras.value, today, false);
    }
  }

  /** The organization carries last_sync extras, every one of them `stamp`. */
  predicate Stamped(o: BackendOrg, stamp: string) {
    o.extras.Some? && HasKey(o.extras.value, LastSyncKey) &&
    forall i :: 0 <= i < |o.extras.value| && o.extras.value[i].key == LastSyncKey ==> o.extras.value[i].value == stamp
  }

  /** The organization create_organization leaves behind when organization_create succeeds. */
  function CreatedOrg(d: Org, stamp: string, h: string, emails: seq<string>, caller: nat): BackendOrg
    requires caller < |emails|
  {
    BackendOrg(d.name, d.title, None, Some(CreateExtras(d, stamp, h)), UsersAfter([caller], emails, d.email), [])
  }

  /**
   * The organization update_organization leaves behind from the stored `org`: new
   * extras, the title only after a detected change, and the users step's members.
   */
  function UpdatedOrg(d: Org, stamp: string, h: string, org: BackendOrg, emails: seq<string>): BackendOrg
    requires UsersIn(org.users, emails)
  {
    var k := Mismatches(org.extras, h);
    org.(title := if k > 0 then d.title else org.title,
         extras := Some(UpdateExtras(d, stamp, h, k)),
         users := UsersAfter(org.users, emails, d.email))
  }

  /** Both create_organization and update_organization leave the organization stamped with `stamp`. */
  lemma WrittenOrgsStamped(d: Org, stamp: string, h: string, org: BackendOrg, emails: seq<string>, caller: nat)
    requires UsersIn(org.users, emails) && caller < |emails|
    ensures Stamped(CreatedOrg(d, stamp, h, emails, caller), stamp)
    ensures Stamped(UpdatedOrg(d, stamp, h, org, emails), stamp)
  {
    assert CreateExtras(d, stamp, h)[1].key == LastSyncKey;
    assert UpdateExtras(d, stamp, h, Mismatches(org.extras, h))[0].key == LastSyncKey;
    RepeatAll(Extra(UrlKey, d.url), Mismatches(org.extras, h));
  }

  /** An organization synced today is never deleted. */
  lemma SyncedTodayKept(o: BackendOrg, now: DateTime)
    requires ValidDateTime(now)
    requires Stamped(o, FormatStamp(now))
    ensures DeleteEligible(o, now.date) == Some(false)
  {
    var es := o.extras.value;
    ParseFormatRoundTrip(now);
    assert StampsParse(es);
    EligibleFromIff(es, now.date, false);
  }

  /** The delete list built from a listing; None when a last_sync value fails to parse. */
  function DeleteList(listing: seq<BackendOrg>, today: Date): Option<seq<BackendOrg>>
  {
    if listing == [] then Some([])
    else
      var last := listing[|listing| - 1];
      match DeleteList(listing[..|listing| - 1], today)
      case None => None
      case Some(d) =>
        match DeleteEligible(last, today)
        case None => None
        case Some(b) => Some(if b then d + [last] else d)
  }

  /** The delete list holds exactly the eligible listed organizations, in listing order. */
  lemma {:induction false} DeleteListExact(listing: seq<BackendOrg>, today: Date)
    ensures DeleteList(listing, today).None? <==>
            exists i :: 0 <= i < |listing| && DeleteEligible(listing[i], today).None?
    ensures DeleteList(listing, today).Some? ==>
            forall o :: o in DeleteList(listing, today).value <==> o in listing && DeleteEligible(o, today) == Some(true)
  {
    if listing != [] {
      var init := listing[..|listing| - 1];
      var last := listing[|listing| - 1];
      DeleteListExact(init, today);
      assert listing == init + [last];
      if exists i :: 0 <= i < |init| && DeleteEligible(init[i], today).None? {
        var i :| 0 <= i < |init| && DeleteEligible(init[i], today).None?;
        assert listing[i] == init[i];
      }
      if exists i :: 0 <= i < |listing| && DeleteEligible(listing[i], today).None? {
        var i :| 0 <= i < |listing| && DeleteEligible(listing[i], today).None?;
        if i < |init| {
          assert init[i] == listing[i];
        }
      }
    }
  }

  /** No two organizations of a list share a name. */
  predicate DistinctNames(os: seq<BackendOrg>) {
    forall i, j :: 0 <= i < j < |os| ==> os[i].name != os[j].name
  }

  /** The names of the organizations of a list. */
  function NamesOf(os: seq<BackendOrg>): (r: set<string>)
    ensures forall n :: n in r <==> exists i :: 0 <= i < |os| && os[i].name == n
  {
    if os == [] then {} else NamesOf(os[..|os| - 1]) + {os[|os| - 1].name}
  }

  /** The delete list of a listing without repeated names repeats no name either. */
  lemma {:induction false} DeleteListDistinct(listing: seq<BackendOrg>, today: Date)
    requires DistinctNames(listing) && DeleteList(listing, today).Some?
    ensures DistinctNames(DeleteList(listing, today).value)
  {
    if listing != [] {
      var init := listing[..|listing| - 1];
      var last := listing[|listing| - 1];
      assert DistinctNames(init) by {
        forall i, j | 0 <= i < j < |init| ensures init[i].name != init[j].name {
          assert init[i] == listing[i] && init[j] == listing[j];
        }
      }
      DeleteListDistinct(init, today);
      DeleteListExact(init, today);
      var d := DeleteList(init, today).value;
      forall i | 0 <= i < |d| ensures d[i].name != last.name {
        assert d[i] in init;
        var k :| 0 <= k < |init| && init[k] == d[i];
        assert listing[k] == init[k];
      }
    }
  }

  /**
   * The delete list of a listing of held, distinctly named organizations: each of
   * its records is held, eligible, and named once.
   */
  lemma DeleteListHeld(orgs: map<string, BackendOrg>, listing: seq<BackendOrg>, today: Date)
    requires forall i :: 0 <= i < |listing| ==> listing[i].name in orgs
    requires DistinctNames(listing) && DeleteList(listing, today).Some?
    ensures var d := DeleteList(listing, today).value;
            && DistinctNames(d)
            && (forall i :: 0 <= i < |d| ==> d[i].name in orgs)
            && (forall o :: o in d ==> DeleteEligible(o, today) == Some(true))
  {
    DeleteListExact(listing, today);
    DeleteListDistinct(listing, today);
    var d := DeleteList(listing, today).value;
    forall i | 0 <= i < |d|
      ensures d[i].name in orgs
    {
      assert d[i] in d;
      var j :| 0 <= j < |listing| && listing[j] == d[i];
    }
  }

  /** Hiding deleted packages does not change whether an organization is eligible. */
  lemma VisibleEligible(o: BackendOrg, deleted: set<string>, today: Date)
    ensures DeleteEligible(Visible(o, deleted), today) == DeleteEligible(o, today)
  {
  }

  /**
   * For a listing that shows every stored organization once: the delete list is
   * built iff every stored organization's last_sync values parse, and then it names
   * exactly the eligible ones.
   */
  lemma ListedVerdicts(orgs: map<string, BackendOrg>, deleted: set<string>, listing: seq<BackendOrg>, today: Date)
    requires forall i :: 0 <= i < |listing| ==>
               listing[i].name in orgs && Visible(orgs[listing[i].name], deleted) == listing[i]
    requires forall k :: k in orgs ==> exists i :: 0 <= i < |listing| && listing[i].name == k
    ensures DeleteList(listing, today).None? <==> exists k :: k in orgs && DeleteEligible(orgs[k], today).None?
    ensures DeleteList(listing, today).Some? ==>
              forall k :: k in orgs ==>
                && DeleteEligible(orgs[k], today).Some?
                && (k in NamesOf(DeleteList(listing, today).value) <==> DeleteEligible(orgs[k], today) == Some(true))
  {
    DeleteListExact(listing, today);
    forall k | k in orgs
      ensures exists i :: 0 <= i < |listing| && listing[i] == Visible(orgs[k], deleted)
      ensures DeleteEligible(Visible(orgs[k], deleted), today) == DeleteEligible(orgs[k], today)
    {
      var i :| 0 <= i < |listing| && listing[i].name == k;
      VisibleEligible(orgs[k], deleted, today);
    }
    if DeleteList(listing, today).None? {
      var i :| 0 <= i < |listing| && DeleteEligible(listing[i], today).None?;
      VisibleEligible(orgs[listing[i].name], deleted, today);
    }
    if DeleteList(listing, today).Some? {
      var d := DeleteList(listing, today).value;
      forall k | k in orgs
        ensures k in NamesOf(d) <==> DeleteEligible(orgs[k], today) == Some(true)
      {
        if k in NamesOf(d) {
          var j :| 0 <= j < |d| && d[j].name == k;
          assert d[j] in d;
        }
        if DeleteEligible(orgs[k], today) == Some(true) {
          var i :| 0 <= i < |listing| && listing[i] == Visible(orgs[k], deleted);
          assert listing[i] in d;
          var j :| 0 <= j < |d| && d[j] == listing[i];
        }
      }
    }
  }

  // ---------------------------------------------------------------------------
  // Classification in `sync`

  /** The accepted records of the feed, in feed order. */
  function ValidOrgs(raws: seq<RawOrg>, defaultEmail: string, slugify: string -> string): seq<Org> {
    if raws == [] then []
    else
      ValidOrgs(raws[..|raws| - 1], defaultEmail, slugify) + Accepted(ValidateOrg(raws[|raws| - 1], defaultEmail, slugify))
  }

  function Accepted(r: Option<Org>): seq<Org> {
    if r.Some? then [r.value] else []
  }

  /** The records whose slug organization_show did not find. */
  function CreateList(valid: seq<Org>, known: set<string>): seq<Org> {
    if valid == [] then []
    else CreateList(valid[..|valid| - 1], known) +
         (if valid[|valid| - 1].name in known then [] else [valid[|valid| - 1]])
  }

  /** The records whose slug organization_show found. */
  function UpdateList(valid: seq<Org>, known: set<string>): seq<Org> {
    if valid == [] then []
    else UpdateList(valid[..|valid| - 1], known) +
         (if valid[|valid| - 1].name in known then [valid[|valid| - 1]] else [])
  }

  /** Every record that reaches classification is the accepted form of a feed entry. */
  lemma {:induction false} ValidOrgsSound(raws: seq<RawOrg>, defaultEmail: string, slugify: string -> string)
    ensures forall o :: o in ValidOrgs(raws, defaultEmail, slugify) ==>
              exists i :: 0 <= i < |raws| && ValidateOrg(raws[i], defaultEmail, slugify) == Some(o)
  {
    if raws != [] {
      var init := raws[..|raws| - 1];
      var r := ValidateOrg(raws[|raws| - 1], defaultEmail, slugify);
      ValidOrgsSound(init, defaultEmail, slugify);
      forall o | o in ValidOrgs(raws, defaultEmail, slugify)
        ensures exists i :: 0 <= i < |raws| && ValidateOrg(raws[i], defaultEmail, slugify) == Some(o)
      {
        if o in ValidOrgs(init, defaultEmail, slugify) {
          var i :| 0 <= i < |init| && ValidateOrg(init[i], defaultEmail, slugify) == Some(o);
          assert raws[i] == init[i];
        } else {
          assert o in Accepted(r);
        }
      }
    }
  }

  lemma InPrefix(x: Org, p: seq<Org>, q: seq<Org>)
    requires x in p
    ensures x in p + q
  {
  }

  lemma InAccepted(p: seq<Org>, r: Option<Org>)
    requires r.Some?
    ensures r.value in p + Accepted(r)
  {
    assert (p + Accepted(r))[|p|] == r.value;
  }

  /** Every accepted feed entry reaches classification. */
  lemma {:induction false} ValidOrgsComplete(raws: seq<RawOrg>, defaultEmail: string, slugify: string -> string)
    ensures forall i :: 0 <= i < |raws| && ValidateOrg(raws[i], defaultEmail, slugify).Some? ==>
              ValidateOrg(raws[i], defaultEmail, slugify).value in ValidOrgs(raws, defaultEmail, slugify)
  {
    if raws != [] {
      var init := raws[..|raws| - 1];
      var prefix := ValidOrgs(init, defaultEmail, slugify);
      var last := Accepted(ValidateOrg(raws[|raws| - 1], defaultEmail, slugify));
      assert ValidOrgs(raws, defaultEmail, slugify) == prefix + last;
      ValidOrgsComplete(init, defaultEmail, slugify);
      forall i | 0 <= i < |raws| && ValidateOrg(raws[i], defaultEmail, slugify).Some?
        ensures ValidateOrg(raws[i], defaultEmail, slugify).value in prefix + last
      {
        if i < |init| {
          assert init[i] == raws[i];
          InPrefix(ValidateOrg(raws[i], defaultEmail, slugify).value, prefix, last);
        } else {
          InAccepted(prefix, ValidateOrg(raws[i], defaultEmail, slugify));
        }
      }
    }
  }

  /**
   * Every accepted record goes to exactly one of the two lists: to update iff its
   * slug is known to the backend.
   */
  lemma {:induction false} ClassifyPartition(valid: seq<Org>, known: set<string>)
    ensures multiset(CreateList(valid, known)) + multiset(UpdateList(valid, known)) == multiset(valid)
    ensures forall o :: o in CreateList(valid, known) ==> o in valid && o.name !in known
    ensures forall o :: o in UpdateList(valid, known) ==> o in valid && o.name in known
  {
    if valid != [] {
      var init := valid[..|valid| - 1];
      ClassifyPartition(init, known);
      assert valid == init + [valid[|valid| - 1]];
    }
  }

  /** The organization_show lookups of the classification loop, one per accepted record. */
  function Lookups(valid: seq<Org>): seq<Call> {
    if valid == [] then [] else Lookups(valid[..|valid| - 1]) + [OrganizationShow(valid[|valid| - 1].name)]
  }

  /** The classification lookups create, patch and delete nothing. */
  lemma {:induction false} LookupsQuiet(valid: seq<Org>)
    ensures OrgEvents(Lookups(valid)) == []
  {
    if valid != [] {
      var init := valid[..|valid| - 1];
      LookupsQuiet(init);
      OrgEventsAppend(Lookups(init), [OrganizationShow(valid[|valid| - 1].name)]);
      OrgEventsOne(OrganizationShow(valid[|valid| - 1].name));
    }
  }

  /** The names create_organization gets past organization_create for. */
  function AcceptedNames(create: seq<Org>, refused: set<string>): (r: set<string>)
    ensures forall n :: n in r <==> n !in refused && exists i :: 0 <= i < |create| && create[i].name == n
  {
    if create == [] then {}
    else AcceptedNames(create[..|create| - 1], refused) +
         (if create[|create| - 1].name in refused then {} else {create[|create| - 1].name})
  }

  /** Calls without organization events leave the events of a trace as they were. */
  lemma AppendQuiet(t: seq<Call>, u: seq<Call>)
    requires OrgEvents(u) == []
    ensures OrgEvents(t + u) == OrgEvents(t)
  {
    OrgEventsAppend(t, u);
    assert OrgEvents(t) + [] == OrgEvents(t);
  }
}
