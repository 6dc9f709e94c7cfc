/**
 * The organization sync script itself (class OppnaDataOrgSync): the per-organization
 * actions and `sync`, run against the in-memory backend. Every method is proved to
 * issue exactly the call sequence the Reconcile functions describe and to leave the
 * backend in the state those calls produce.
 */
module OrgSync {
  import opened Common
  import opened Stamps
  import opened Normalize
  import opened Fetch
  import opened Backend
  import opened Reconcile

  /** What a run of `sync` ends in. */
  datatype Outcome =
    | Exited(code: int)            // sys.exit: the feed could not be fetched or parsed
    | Crashed                      // parse_datetime raised on a stored last_sync value
    | Completed(create: seq<Org>, update: seq<Org>, delete: seq<BackendOrg>)

  /**
   * The delete loop of `sync` over the organization listing, with parse_datetime
   * as ParseStamp; None when a last_sync value does not parse (the ValueError).
   */
  method DeleteCandidates(listing: seq<BackendOrg>, today: Date) returns (delete: Option<seq<BackendOrg>>)
    ensures delete == DeleteList(listing, today)
  {
    var acc: seq<BackendOrg> := [];
    var i := 0;
    while i < |listing|
      invariant 0 <= i <= |listing|
      invariant DeleteList(listing[..i], today) == Some(acc)
    {
      var org := listing[i];
      assert listing[..i + 1][..i] == listing[..i];
      if org.extras.Some? {
        var es := org.extras.value;
        var found := false;
        var j := 0;
        while j < |es|
          invariant 0 <= j <= |es|
          invariant EligibleFrom(es, today, false) == EligibleFrom(es[j..], today, found)
          invariant DeleteList(listing[..i], today) == Some(acc)
        {
          if es[j].key != LastSyncKey {
            j := j + 1;
            continue;
          }
          found := true;
          var lastSync := ParseStamp(es[j].value);
          if lastSync.None? {
            assert DeleteEligible(listing[i], today).None?;
            DeleteListExact(listing, today);
            return None;
          }
          if DateBefore(lastSync.value.date, today) {
            acc := acc + [org];
            break;
          }
          j := j + 1;
        }
        if !found {
          acc := acc + [org];
        }
      } else {
        acc := acc + [org];
      }
      i := i + 1;
    }
    assert listing[..i] == listing;
    delete := Some(acc);
  }

  class OppnaDataOrgSync {
    const ckan: Ckan
    const defaultEmail: string
    /** slugify.slugify */
    const slugify: string -> string
    /** generate_hash(json.dumps(record)) */
    const hash: Org -> string

    constructor (ckan: Ckan, defaultEmail: string, slugify: string -> string, hash: Org -> string)
      ensures this.ckan == ckan && this.defaultEmail == defaultEmail
      ensures this.slugify == slugify && this.hash == hash
    {
      this.ckan := ckan;
      this.defaultEmail := defaultEmail;
      this.slugify := slugify;
      this.hash := hash;
    }

    /**
     * _process_users(org, data): `org` is the organization as the backend holds it.
     * The email ends up among the organization's members' emails, and no member is
     * removed.
     */
    method ProcessUsers(org: BackendOrg, data: Org)
      requires ckan.Valid() && org.name in ckan.orgs && ckan.orgs[org.name].users == org.users
      modifies ckan
      ensures ckan.Valid()
      ensures ckan.trace == old(ckan.trace) + UserCalls(org.users, old(ckan.userEmails), data.email, org.name)
      ensures ckan.userEmails == EmailsAfter(org.users, old(ckan.userEmails), data.email)
      ensures ckan.orgs == old(ckan.orgs)[org.name := old(ckan.orgs)[org.name].(
                users := UsersAfter(org.users, old(ckan.userEmails), data.email))]
      ensures ckan.sources == old(ckan.sources) && ckan.deleted == old(ckan.deleted)
    {
      if data.email == "" {
        return;
      }
      var userExists := false;
      var i := 0;
      while i < |org.users|
        invariant 0 <= i <= |org.users|
        invariant ckan.Valid() && ckan.orgs == old(ckan.orgs) && ckan.sources == old(ckan.sources)
        invariant ckan.userEmails == old(ckan.userEmails) && ckan.deleted == old(ckan.deleted)
        invariant ckan.trace == old(ckan.trace) + UserShows(org.users[..i])
        invariant forall j :: 0 <= j < i ==> ckan.userEmails[org.users[j]] != data.email
      {
        var email := ckan.UserShowAction(org.users[i]);
        if email == data.email {
          userExists := true;
          assert org.users[..i] + [org.users[i]] == org.users[..i + 1];
          break;
        }
        assert org.users[..i] + [org.users[i]] == org.users[..i + 1];
        i := i + 1;
      }
      FirstMatchFirst(org.users, old(ckan.userEmails), data.email);
      assert userExists ==> i < |org.users| && FirstMatch(org.users, old(ckan.userEmails), data.email) == i;
      if !userExists {
        assert FirstMatch(org.users, old(ckan.userEmails), data.email) == |org.users|;
        assert org.users[..i] == org.users;
        ckan.UserInviteAction(data.email, org.name, AdminRole);
      }
    }

    /**
     * The harvest-source step of create_organization for the organization `org` it
     * just created: patch the source harvest_source_show finds, or create a WEEKLY
     * dcat_rdf source and one harvest job for it.
     */
    method SetUpSource(org: BackendOrg, data: Org)
      requires org.name == data.name && org.title == data.title
      modifies ckan
      ensures ckan.trace == old(ckan.trace) + [HarvestSourceShow(Some(data.name), data.dcatUrl)] +
                SourceCalls(data, SourceLookup(old(ckan.sources), Some(data.name), data.dcatUrl).Some?)
      ensures ckan.orgs == old(ckan.orgs) && ckan.userEmails == old(ckan.userEmails)
      ensures ckan.sources ==
                if SourceLookup(old(ckan.sources), Some(data.name), data.dcatUrl).Some?
                then PatchSource(old(ckan.sources), data.name, data.name, data.dcatUrl)
                else old(ckan.sources) +
                     [HarvestSource(data.name, data.title, data.dcatUrl, data.name, Weekly, DcatRdf)]
      ensures ckan.deleted == old(ckan.deleted)
    {
      var source := ckan.HarvestSourceShowAction(Some(org.name), data.dcatUrl);
      if source.Some? {
        ckan.HarvestSourcePatchAction(data.name, org.name, data.dcatUrl);
      } else {
        var created := ckan.HarvestSourceCreateAction(org.name, org.title, data.dcatUrl,
                                                      org.name, Weekly, DcatRdf);
        ckan.HarvestJobCreateAction(created.name);
      }
    }

    /**
     * create_organization(data) with NOW_STR() read as `stamp`. The organization is
     * created unless organization_create refuses the name; then its harvest source
     * is patched if harvest_source_show finds it and created (with a first job)
     * otherwise, and its admin is invited.
     */
    method CreateOrganization(data: Org, stamp: string)
      requires ckan.Valid()
      modifies ckan
      ensures ckan.Valid()
      ensures ckan.trace == old(ckan.trace) +
                CreateCalls(data, stamp, hash(data), data.name !in old(ckan.orgs) && data.name !in ckan.refused,
                            SourceLookup(old(ckan.sources), Some(data.name), data.dcatUrl).Some?,
                            old(ckan.userEmails), ckan.caller)
      ensures ckan.sources ==
                if data.name in old(ckan.orgs) || data.name in ckan.refused then old(ckan.sources)
                else if SourceLookup(old(ckan.sources), Some(data.name), data.dcatUrl).Some?
                then PatchSource(old(ckan.sources), data.name, data.name, data.dcatUrl)
                else old(ckan.sources) +
                     [HarvestSource(data.name, data.title, data.dcatUrl, data.name, Weekly, DcatRdf)]
      ensures if data.name in old(ckan.orgs) || data.name in ckan.refused
              then ckan.userEmails == old(ckan.userEmails) && ckan.orgs == old(ckan.orgs)
              else ckan.userEmails == EmailsAfter([ckan.caller], old(ckan.userEmails), data.email) &&
                   ckan.orgs == old(ckan.orgs)[data.name :=
                     CreatedOrg(data, stamp, hash(data), old(ckan.userEmails), ckan.caller)]
      ensures ckan.deleted == old(ckan.deleted)
    {
      var extras := CreateExtras(data, stamp, hash(data));
      var org := ckan.OrganizationCreateAction(data.name, data.title, extras);
      if org.Some? {
        ghost var t1 := ckan.trace;
        ghost var followUp := CreateFollowUp(data, SourceLookup(ckan.sources, Some(data.name), data.dcatUrl).Some?,
                                             ckan.userEmails, ckan.caller);
        FinishCreate(org.value, data);
        assert ckan.trace == old(ckan.trace) + ([OrganizationCreate(data.name, data.title, extras)] + followUp) by {
          assert ckan.trace == t1 + followUp;
          assert t1 == old(ckan.trace) + [OrganizationCreate(data.name, data.title, extras)];
        }
        assert org.value.(users := UsersAfter([ckan.caller], old(ckan.userEmails), data.email)) ==
               CreatedOrg(data, stamp, hash(data), old(ckan.userEmails), ckan.caller);
      } else {
        assert [OrganizationCreate(data.name, data.title, extras)] + [] == [OrganizationCreate(data.name, data.title, extras)];
      }
    }

    /**
     * The rest of create_organization once organization_create returned the new
     * organization `org`, whose one member is the calling user: its harvest source,
     * then the users step over that member.
     */
    method FinishCreate(org: BackendOrg, data: Org)
      requires ckan.Valid() && org.name == data.name && org.title == data.title && org.users == [ckan.caller]
      requires data.name in ckan.orgs && ckan.orgs[data.name] == org
      modifies ckan
      ensures ckan.Valid()
      ensures ckan.trace == old(ckan.trace) +
                CreateFollowUp(data, SourceLookup(old(ckan.sources), Some(data.name), data.dcatUrl).Some?,
                               old(ckan.userEmails), ckan.caller)
      ensures ckan.sources ==
                if SourceLookup(old(ckan.sources), Some(data.name), data.dcatUrl).Some?
                then PatchSource(old(ckan.sources), data.name, data.name, data.dcatUrl)
                else old(ckan.sources) +
                     [HarvestSource(data.name, data.title, data.dcatUrl, data.name, Weekly, DcatRdf)]
      ensures ckan.userEmails == EmailsAfter([ckan.caller], old(ckan.userEmails), data.email)
      ensures ckan.orgs == old(ckan.orgs)[data.name :=
                org.(users := UsersAfter([ckan.caller], old(ckan.userEmails), data.email))]
      ensures ckan.deleted == old(ckan.deleted)
    {
      SetUpSource(org, data);
      assert ckan.Valid();
      ProcessUsers(org, data);
    }

    /**
     * update_organization(data) with NOW_STR() read as `stamp`: one harvest_source_patch
     * per stored last_sync_hash that differs from the new hash, the users step, and
     * always one organization_patch carrying a fresh last_sync.
     */
    method UpdateOrganization(data: Org, stamp: string)
      requires ckan.Valid() && data.name in ckan.orgs
      modifies ckan
      ensures ckan.Valid()
      ensures ckan.trace == old(ckan.trace) +
                UpdateCalls(data, stamp, hash(data), old(ckan.orgs)[data.name], old(ckan.userEmails))
      ensures ckan.sources ==
                if Mismatches(old(ckan.orgs)[data.name].extras, hash(data)) > 0
                then PatchSource(old(ckan.sources), data.name, data.name, data.dcatUrl)
                else old(ckan.sources)
      ensures ckan.userEmails == EmailsAfter(old(ckan.orgs)[data.name].users, old(ckan.userEmails), data.email)
      ensures ckan.orgs == old(ckan.orgs)[data.name :=
                UpdatedOrg(data, stamp, hash(data), old(ckan.orgs)[data.name], old(ckan.userEmails))]
      ensures ckan.deleted == old(ckan.deleted)
    {
      var shown := ckan.OrganizationShowAction(data.name);
      var org := shown.value;
      ghost var stored := old(ckan.orgs)[data.name];
      assert org.extras == stored.extras && org.users == stored.users;
      ghost var t1 := ckan.trace;
      PatchShown(org, data, stamp);
      ghost var tail := UpdateTail(data, stamp, hash(data), stored, old(ckan.userEmails));
      assert ckan.trace == t1 + tail by {
        UpdateTailOfShown(data, stamp, hash(data), org, stored, old(ckan.userEmails));
      }
      assert ckan.trace == old(ckan.trace) + UpdateCalls(data, stamp, hash(data), stored, old(ckan.userEmails)) by {
        assert t1 == old(ckan.trace) + [OrganizationShow(data.name)];
        assert UpdateCalls(data, stamp, hash(data), stored, old(ckan.userEmails)) == [OrganizationShow(data.name)] + tail;
      }
    }

    /**
     * The rest of update_organization once organization_show returned `org`: the
     * change detection, the users step and the closing organization_patch.
     */
    method PatchShown(org: BackendOrg, data: Org, stamp: string)
      requires ckan.Valid() && data.name in ckan.orgs && org.name == data.name
      requires ckan.orgs[data.name].extras == org.extras && ckan.orgs[data.name].users == org.users
      modifies ckan
      ensures ckan.Valid()
      ensures ckan.trace == old(ckan.trace) + UpdateTail(data, stamp, hash(data), org, old(ckan.userEmails))
      ensures ckan.sources ==
                if Mismatches(org.extras, hash(data)) > 0
                then PatchSource(old(ckan.sources), data.name, data.name, data.dcatUrl)
                else old(ckan.sources)
      ensures ckan.userEmails == EmailsAfter(org.users, old(ckan.userEmails), data.email)
      ensures ckan.orgs == old(ckan.orgs)[data.name :=
                UpdatedOrg(data, stamp, hash(data), old(ckan.orgs)[data.name], old(ckan.userEmails))]
      ensures ckan.deleted == old(ckan.deleted)
    {
      var h := hash(data);
      var title, extras := DetectChange(org, data, stamp, h);
      ghost var k := Mismatches(org.extras, h);
      ghost var t2 := ckan.trace;
      FinishUpdate(org, data, title, extras);
      ghost var userCalls := UserCalls(org.users, old(ckan.userEmails), data.email, data.name);
      assert ckan.trace == old(ckan.trace) + (SourcePatches(data, k) + userCalls + [FinalPatch(data, stamp, h, k)]) by {
        assert ckan.trace == t2 + userCalls + [OrganizationPatch(data.name, title, extras)];
        assert t2 == old(ckan.trace) + SourcePatches(data, k);
      }
      assert ckan.orgs == old(ckan.orgs)[data.name := UpdatedOrg(data, stamp, h, old(ckan.orgs)[data.name], old(ckan.userEmails))] by {
        assert title == (if k > 0 then Some(data.title) else None);
        assert extras == UpdateExtras(data, stamp, h, k);
      }
    }

    /**
     * The end of update_organization: the users step, then organization_patch with
     * the title and extras the change detection produced.
     */
    method FinishUpdate(org: BackendOrg, data: Org, title: Option<string>, extras: seq<Extra>)
      requires ckan.Valid() && data.name in ckan.orgs && org.name == data.name
      requires ckan.orgs[data.name].users == org.users
      modifies ckan
      ensures ckan.Valid()
      ensures ckan.trace == old(ckan.trace) + UserCalls(org.users, old(ckan.userEmails), data.email, data.name) +
                            [OrganizationPatch(data.name, title, extras)]
      ensures ckan.userEmails == EmailsAfter(org.users, old(ckan.userEmails), data.email)
      ensures ckan.orgs == old(ckan.orgs)[data.name := old(ckan.orgs)[data.name].(
                title := if title.Some? then title.value else old(ckan.orgs)[data.name].title,
                extras := Some(extras),
                users := UsersAfter(org.users, old(ckan.userEmails), data.email))]
      ensures ckan.sources == old(ckan.sources) && ckan.deleted == old(ckan.deleted)
    {
      ProcessUsers(org, data);
      ckan.OrganizationPatchAction(data.name, title, extras);
    }

    /**
     * The loop of update_organization over the stored extras: each last_sync_hash
     * that differs from `h` adds the title and a url extra to the patch and patches
     * the harvest source.
     */
    method DetectChange(org: BackendOrg, data: Org, stamp: string, h: string)
      returns (title: Option<string>, extras: seq<Extra>)
      modifies ckan
      ensures extras == UpdateExtras(data, stamp, h, Mismatches(org.extras, h))
      ensures title == if Mismatches(org.extras, h) > 0 then Some(data.title) else None
      ensures ckan.trace == old(ckan.trace) + SourcePatches(data, Mismatches(org.extras, h))
      ensures ckan.sources ==
                if Mismatches(org.extras, h) > 0
                then PatchSource(old(ckan.sources), data.name, data.name, data.dcatUrl)
                else old(ckan.sources)
      ensures ckan.orgs == old(ckan.orgs) && ckan.userEmails == old(ckan.userEmails)
      ensures ckan.deleted == old(ckan.deleted)
    {
      extras := [Extra(LastSyncKey, stamp), Extra(LastSyncHashKey, h), Extra(LastSyncDcatUrlKey, data.dcatUrl)];
      title := None;
      if org.extras.None? {
        return;
      }
      var es := org.extras.value;
      ghost var k := 0;
      var i := 0;
      while i < |es|
        invariant 0 <= i <= |es|
        invariant k == HashMismatches(es[..i], h)
        invariant extras == UpdateExtras(data, stamp, h, k)
        invariant title == if k > 0 then Some(data.title) else None
        invariant ckan.trace == old(ckan.trace) + SourcePatches(data, k)
        invariant ckan.sources ==
                    if k > 0 then PatchSource(old(ckan.sources), data.name, data.name, data.dcatUrl)
                    else old(ckan.sources)
        invariant ckan.orgs == old(ckan.orgs) && ckan.userEmails == old(ckan.userEmails)
        invariant ckan.deleted == old(ckan.deleted)
      {
        assert es[..i + 1][..i] == es[..i];
        if es[i].key == LastSyncHashKey {
          if es[i].value != h {
            title := Some(data.title);
            extras := extras + [Extra(UrlKey, data.url)];
            if k > 0 {
              PatchSourceTwice(old(ckan.sources), data.name, data.name, data.dcatUrl);
            }
            ckan.HarvestSourcePatchAction(data.name, data.name, data.dcatUrl);
            k := k + 1;
          }
        }
        i := i + 1;
      }
      assert es[..i] == es;
    }

    /**
     * delete_organization(data, soft_delete) for a record of the organization
     * listing. A soft delete only deletes the organization; a hard delete first
     * removes the harvest source found under the stored dcat url and the packages.
     */
    method DeleteOrganization(data: BackendOrg, softDelete: bool)
      requires ckan.Valid() && data.name in ckan.orgs
      modifies ckan
      ensures ckan.Valid()
      ensures ckan.userEmails == old(ckan.userEmails)
      ensures ckan.orgs == old(ckan.orgs) - {data.name}
      ensures softDelete ==> ckan.trace == old(ckan.trace) + [OrganizationDelete(data.name)] &&
                             ckan.sources == old(ckan.sources) && ckan.deleted == old(ckan.deleted)
      ensures !softDelete ==>
                var source := SourceLookup(old(ckan.sources), None, DeleteDcatUrl(data));
                var gone := old(ckan.deleted) + ElementsOf(SourcePackage(data, source));
                var listed := Live(old(ckan.orgs)[data.name].packages, gone);
                && ckan.trace == old(ckan.trace) + DeleteCalls(data, false, source, listed)
                && ckan.sources == (if source.Some? then DeleteSource(old(ckan.sources), source.value.name)
                                    else old(ckan.sources))
                && ckan.deleted == gone + (if |data.packages| > 0 then ElementsOf(listed) else {})
    {
      if softDelete {
        ckan.OrganizationDeleteAction(data.name);
      } else {
        HardDelete(data);
      }
    }

    /**
     * The hard-delete branch of delete_organization: the harvest source found under
     * the stored dcat url, then the packages when the record counts some, then the
     * organization itself.
     */
    method HardDelete(data: BackendOrg)
      requires ckan.Valid() && data.name in ckan.orgs
      modifies ckan
      ensures ckan.Valid()
      ensures ckan.userEmails == old(ckan.userEmails)
      ensures ckan.orgs == old(ckan.orgs) - {data.name}
      ensures var source := SourceLookup(old(ckan.sources), None, DeleteDcatUrl(data));
              var gone := old(ckan.deleted) + ElementsOf(SourcePackage(data, source));
              var listed := Live(old(ckan.orgs)[data.name].packages, gone);
              && ckan.trace == old(ckan.trace) + DeleteCalls(data, false, source, listed)
              && ckan.sources == (if source.Some? then DeleteSource(old(ckan.sources), source.value.name)
                                  else old(ckan.sources))
              && ckan.deleted == gone + (if |data.packages| > 0 then ElementsOf(listed) else {})
    {
      var dcatUrl := StoredDcatUrl(ExtrasOf(data));
      var url := if dcatUrl.Some? then dcatUrl.value else DefaultDcatUrl(PyStr(data.url));
      assert url == DeleteDcatUrl(data);
      var source := RemoveSource(data, url);
      ghost var t1 := ckan.trace;
      ghost var listed := Live(ckan.orgs[data.name].packages, ckan.deleted);
      RemoveListedPackages(data);
      ghost var t2 := ckan.trace;
      ckan.OrganizationDeleteAction(data.name);
      assert ckan.trace == old(ckan.trace) + DeleteCalls(data, false, source, listed) by {
        ghost var prefix := HardDeletePrefix(data, source, listed);
        assert t1 == old(ckan.trace) + ([HarvestSourceShow(None, url)] + SourceRemoval(data, source)) by {
          AppendAssoc(old(ckan.trace), [HarvestSourceShow(None, url)], SourceRemoval(data, source));
        }
        assert t2 == old(ckan.trace) + prefix by {
          AppendAssoc(old(ckan.trace), [HarvestSourceShow(None, url)] + SourceRemoval(data, source),
                      PackageRemoval(data, listed));
        }
        AppendAssoc(old(ckan.trace), prefix, [OrganizationDelete(data.name)]);
      }
    }

    /**
     * The harvest-source step of a hard delete: harvest_source_show by url, and for
     * a found source harvest_source_clear, harvest_source_delete and package_delete
     * of the package named after the organization.
     */
    method RemoveSource(data: BackendOrg, url: string) returns (source: Option<HarvestSource>)
      requires ckan.Valid()
      modifies ckan
      ensures ckan.Valid()
      ensures source == SourceLookup(old(ckan.sources), None, url)
      ensures ckan.trace == old(ckan.trace) + [HarvestSourceShow(None, url)] + SourceRemoval(data, source)
      ensures ckan.sources == if source.Some? then DeleteSource(old(ckan.sources), source.value.name) else old(ckan.sources)
      ensures ckan.deleted == old(ckan.deleted) + ElementsOf(SourcePackage(data, source))
      ensures ckan.orgs == old(ckan.orgs) && ckan.userEmails == old(ckan.userEmails)
    {
      source := ckan.HarvestSourceShowAction(None, url);
      if source.Some? {
        ckan.HarvestSourceClearAction(source.value.name);
        ckan.HarvestSourceDeleteAction(source.value.name);
        ckan.PackageDeleteAction(data.name);
        assert ElementsOf([data.name]) == {data.name};
      }
    }

    /**
     * The package step of a hard delete: organization_show of the organization, then
     * package_delete of each package it lists, in order. Afterwards no package it
     * listed is left.
     */
    method RemovePackages(name: string)
      requires ckan.Valid() && name in ckan.orgs
      modifies ckan
      ensures ckan.Valid()
      ensures ckan.trace == old(ckan.trace) + [OrganizationShow(name)] +
                            PackageDeletes(Live(old(ckan.orgs)[name].packages, old(ckan.deleted)))
      ensures ckan.deleted == old(ckan.deleted) + ElementsOf(Live(old(ckan.orgs)[name].packages, old(ckan.deleted)))
      ensures Live(old(ckan.orgs)[name].packages, ckan.deleted) == []
      ensures ckan.orgs == old(ckan.orgs) && ckan.sources == old(ckan.sources)
      ensures ckan.userEmails == old(ckan.userEmails)
    {
      var shown := ckan.OrganizationShowAction(name);
      var packages := shown.value.packages;
      ghost var t1 := ckan.trace;
      var i := 0;
      while i < |packages|
        invariant 0 <= i <= |packages|
        invariant ckan.trace == t1 + PackageDeletes(packages[..i])
        invariant ckan.deleted == old(ckan.deleted) + ElementsOf(packages[..i])
        invariant ckan.orgs == old(ckan.orgs) && ckan.sources == old(ckan.sources)
        invariant ckan.userEmails == old(ckan.userEmails)
      {
        ckan.PackageDeleteAction(packages[i]);
        DeletePackageStep(packages, i);
        i := i + 1;
      }
      assert packages[..i] == packages;
      LiveAfterDeletingLive(old(ckan.orgs)[name].packages, old(ckan.deleted));
    }

    /** The package step of a hard delete: only a record that counts packages has them removed. */
    method RemoveListedPackages(data: BackendOrg)
      requires ckan.Valid() && data.name in ckan.orgs
      modifies ckan
      ensures ckan.Valid()
      ensures var listed := Live(old(ckan.orgs)[data.name].packages, old(ckan.deleted));
              && ckan.trace == old(ckan.trace) + PackageRemoval(data, listed)
              && ckan.deleted == old(ckan.deleted) + (if |data.packages| > 0 then ElementsOf(listed) else {})
      ensures ckan.orgs == old(ckan.orgs) && ckan.sources == old(ckan.sources)
      ensures ckan.userEmails == old(ckan.userEmails)
    {
      if |data.packages| > 0 {
        RemovePackages(data.name);
        AppendAssoc(old(ckan.trace), [OrganizationShow(data.name)],
                    PackageDeletes(Live(old(ckan.orgs)[data.name].packages, old(ckan.deleted))));
      } else {
        assert old(ckan.trace) + [] == old(ckan.trace);
      }
    }

    /**
     * sync(): fetch and parse the feed, then create the new organizations, update
     * the known ones, and hard-delete every listed organization that the last_sync
     * rule marks. `net` answers the requests of `get`, `parse` is json.loads, `now`
     * the clock reading NOW_STR formats and `today` the date NOW().date() gives.
     */
    method Sync(net: nat -> Attempt, parse: string -> Option<seq<RawOrg>>, now: DateTime, today: Date)
      returns (outcome: Outcome)
      requires ckan.Valid() && ValidDateTime(now)
      modifies ckan
      ensures ckan.Valid()
      ensures outcome.Exited? <==> Feed(net, parse).None?
      ensures outcome.Exited? ==> outcome.code == 1 && ckan.trace == old(ckan.trace) && ckan.orgs == old(ckan.orgs)
      ensures !outcome.Exited? ==>
                var valid := ValidOrgs(Feed(net, parse).value, defaultEmail, slugify);
                var create := CreateList(valid, old(ckan.orgs).Keys);
                var update := UpdateList(valid, old(ckan.orgs).Keys);
                && (outcome.Completed? ==> outcome.create == create && outcome.update == update)
                && OrgEvents(ckan.trace) == OrgEvents(old(ckan.trace)) + CreatedAll(create) + PatchedAll(update) +
                                            (if outcome.Completed? then DeletedAll(outcome.delete) else [])
      ensures outcome.Crashed? ==> exists n :: n in ckan.orgs && DeleteEligible(ckan.orgs[n], today).None?
      ensures outcome.Completed? ==>
                && (forall n :: n in ckan.orgs ==> DeleteEligible(ckan.orgs[n], today) == Some(false))
                && (forall o :: o in outcome.delete ==> o.name !in ckan.orgs && DeleteEligible(o, today) == Some(true))
      ensures outcome.Completed? && today == now.date ==>
                && (forall o :: o in outcome.update ==> o.name in ckan.orgs)
                && (forall o :: o in outcome.create && o.name !in ckan.refused ==> o.name in ckan.orgs)
    {
      var fetched := FetchFeed(net);
      var gate := FeedGate(fetched.response);
      if !gate.Proceed? {
        return Exited(1);
      }
      var raws := parse(gate.content);
      if raws.None? {
        return Exited(1);
      }
      ghost var t0 := ckan.trace;
      var stamp := FormatStamp(now);
      var create, update := CreateAndUpdate(raws.value, stamp);
      ghost var kept := AcceptedNames(create, ckan.refused) + OrgNames(update);
      ghost var t1 := ckan.trace;
      var delete := Prune(today, kept, now);
      if delete.None? {
        outcome := Crashed;
      } else {
        outcome := Completed(create, update, delete.value);
      }
      assert OrgEvents(ckan.trace) == OrgEvents(t0) + CreatedAll(create) + PatchedAll(update) +
                                      (if delete.Some? then DeletedAll(delete.value) else []);
      KeptCovers(create, update, ckan.refused);
    }

    /**
     * The classification, create and update loops of `sync`: every organization they
     * create or update ends up stamped with `stamp`.
     */
    method CreateAndUpdate(raws: seq<RawOrg>, stamp: string) returns (create: seq<Org>, update: seq<Org>)
      requires ckan.Valid()
      modifies ckan
      ensures ckan.Valid()
      ensures create == CreateList(ValidOrgs(raws, defaultEmail, slugify), old(ckan.orgs).Keys)
      ensures update == UpdateList(ValidOrgs(raws, defaultEmail, slugify), old(ckan.orgs).Keys)
      ensures OrgEvents(ckan.trace) == OrgEvents(old(ckan.trace)) + CreatedAll(create) + PatchedAll(update)
      ensures AllStamped(ckan.orgs, AcceptedNames(create, ckan.refused) + OrgNames(update), stamp)
    {
      create, update := Classify(raws);
      ClassifyPartition(ValidOrgs(raws, defaultEmail, slugify), old(ckan.orgs).Keys);
      ghost var t1 := ckan.trace;
      assert OrgEvents(t1) == OrgEvents(old(ckan.trace)) by {
        LookupsQuiet(ValidOrgs(raws, defaultEmail, slugify));
        AppendQuiet(old(ckan.trace), Lookups(ValidOrgs(raws, defaultEmail, slugify)));
      }
      CreateAll(create, stamp);
      UpdateAll(update, stamp, AcceptedNames(create, ckan.refused));
    }

    /**
     * The listing and delete loops of `sync`: None when a listed last_sync value does
     * not parse (nothing is deleted then); otherwise the delete list, each of whose
     * organizations is gone while every remaining one is kept by the last_sync rule.
     * Organizations stamped with today's NOW_STR are never deleted.
     */
    method Prune(today: Date, ghost kept: set<string>, ghost now: DateTime) returns (delete: Option<seq<BackendOrg>>)
      requires ckan.Valid() && ValidDateTime(now) && AllStamped(ckan.orgs, kept, FormatStamp(now))
      modifies ckan
      ensures ckan.Valid()
      ensures OrgEvents(ckan.trace) == OrgEvents(old(ckan.trace)) + (if delete.Some? then DeletedAll(delete.value) else [])
      ensures delete.None? ==>
                ckan.orgs == old(ckan.orgs) && exists n :: n in ckan.orgs && DeleteEligible(ckan.orgs[n], today).None?
      ensures delete.Some? ==>
                && (forall n :: n in ckan.orgs ==> DeleteEligible(ckan.orgs[n], today) == Some(false))
                && (forall o :: o in delete.value ==> o.name !in ckan.orgs && DeleteEligible(o, today) == Some(true))
      ensures delete.Some? && today == now.date ==> forall n :: n in kept ==> n in ckan.orgs
    {
      var listing := ckan.OrganizationListAction();
      assert OrgEvents(ckan.trace) == OrgEvents(old(ckan.trace)) by {
        OrgEventsOne(OrganizationList);
        AppendQuiet(old(ckan.trace), [OrganizationList]);
      }
      ghost var listed := ckan.orgs;
      ListedVerdicts(ckan.orgs, ckan.deleted, listing, today);
      delete := DeleteCandidates(listing, today);
      if delete.None? {
        return;
      }
      DeleteListHeld(ckan.orgs, listing, today);
      DeleteAll(delete.value);
      SurvivorsKept(listed, ckan.orgs, NamesOf(delete.value), delete.value, today);
      if today == now.date {
        StampedKept(listed, NamesOf(delete.value), kept, now);
      }
    }

    /** One round of the classification loop: validate the record, look its slug up, file it. */
    method ClassifyOne(raw: RawOrg, ghost t0: seq<Call>, ghost valid: seq<Org>, create0: seq<Org>, update0: seq<Org>)
      returns (create: seq<Org>, update: seq<Org>)
      requires ckan.Valid()
      requires create0 == CreateList(valid, ckan.orgs.Keys) && update0 == UpdateList(valid, ckan.orgs.Keys)
      requires ckan.trace == t0 + Lookups(valid)
      modifies ckan
      ensures ckan.Valid()
      ensures var valid' := valid + Accepted(ValidateOrg(raw, defaultEmail, slugify));
              && create == CreateList(valid', old(ckan.orgs).Keys)
              && update == UpdateList(valid', old(ckan.orgs).Keys)
              && ckan.trace == t0 + Lookups(valid')
      ensures ckan.orgs == old(ckan.orgs) && ckan.sources == old(ckan.sources)
      ensures ckan.userEmails == old(ckan.userEmails) && ckan.deleted == old(ckan.deleted)
    {
      create, update := create0, update0;
      var org := ValidateOrg(raw, defaultEmail, slugify);
      if org.Some? {
        assert valid + Accepted(org) == valid + [org.value];
        ClassifyStep(valid, org.value, ckan.orgs.Keys);
        var shown := ckan.OrganizationShowAction(org.value.name);
        AppendAssoc(t0, Lookups(valid), [OrganizationShow(org.value.name)]);
        if shown.Some? {
          update := update + [org.value];
        } else {
          create := create + [org.value];
        }
      } else {
        assert valid + Accepted(org) == valid;
      }
    }

    /**
     * The classification loop of `sync`: each accepted record goes to `update` when
     * organization_show finds its slug and to `create` otherwise.
     */
    method Classify(raws: seq<RawOrg>) returns (create: seq<Org>, update: seq<Org>)
      requires ckan.Valid()
      modifies ckan
      ensures ckan.Valid()
      ensures create == CreateList(ValidOrgs(raws, defaultEmail, slugify), old(ckan.orgs).Keys)
      ensures update == UpdateList(ValidOrgs(raws, defaultEmail, slugify), old(ckan.orgs).Keys)
      ensures ckan.trace == old(ckan.trace) + Lookups(ValidOrgs(raws, defaultEmail, slugify))
      ensures ckan.orgs == old(ckan.orgs) && ckan.sources == old(ckan.sources)
      ensures ckan.userEmails == old(ckan.userEmails) && ckan.deleted == old(ckan.deleted)
    {
      create, update := [], [];
      var i := 0;
      while i < |raws|
        invariant 0 <= i <= |raws|
        invariant ckan.orgs == old(ckan.orgs) && ckan.sources == old(ckan.sources)
        invariant ckan.userEmails == old(ckan.userEmails) && ckan.deleted == old(ckan.deleted)
        invariant create == CreateList(ValidOrgs(raws[..i], defaultEmail, slugify), old(ckan.orgs).Keys)
        invariant update == UpdateList(ValidOrgs(raws[..i], defaultEmail, slugify), old(ckan.orgs).Keys)
        invariant ckan.trace == old(ckan.trace) + Lookups(ValidOrgs(raws[..i], defaultEmail, slugify))
      {
        ValidOrgsStep(raws, i, defaultEmail, slugify);
        create, update := ClassifyOne(raws[i], old(ckan.trace), ValidOrgs(raws[..i], defaultEmail, slugify), create, update);
        i := i + 1;
      }
      assert raws[..i] == raws;
    }

    /** The create loop of `sync`: create_organization on each record, in order. */
    method CreateAll(create: seq<Org>, stamp: string)
      requires ckan.Valid()
      requires forall i :: 0 <= i < |create| ==> create[i].name !in ckan.orgs
      modifies ckan
      ensures ckan.Valid()
      ensures OrgEvents(ckan.trace) == OrgEvents(old(ckan.trace)) + CreatedAll(create)
      ensures ckan.orgs.Keys == old(ckan.orgs).Keys + AcceptedNames(create, ckan.refused)
      ensures AllStamped(ckan.orgs, AcceptedNames(create, ckan.refused), stamp)
    {
      var i := 0;
      while i < |create|
        invariant 0 <= i <= |create|
        invariant ckan.Valid()
        invariant OrgEvents(ckan.trace) == OrgEvents(old(ckan.trace)) + CreatedAll(create[..i])
        invariant ckan.orgs.Keys == old(ckan.orgs).Keys + AcceptedNames(create[..i], ckan.refused)
        invariant AllStamped(ckan.orgs, AcceptedNames(create[..i], ckan.refused), stamp)
      {
        assert create[..i + 1][..i] == create[..i];
        assert CreatedAll(create[..i + 1]) == CreatedAll(create[..i]) + [Created(create[i].name)];
        ghost var t1 := ckan.trace;
        CreateOne(create[i], stamp, old(ckan.orgs).Keys, AcceptedNames(create[..i], ckan.refused));
        EventsStep(old(ckan.trace), t1, ckan.trace, CreatedAll(create[..i]), Created(create[i].name));
        i := i + 1;
      }
      assert create[..i] == create;
    }

    /**
     * One round of the create loop, for a record whose slug the backend did not
     * hold before the loop; `accepted` are the slugs created so far.
     */
    method CreateOne(d: Org, stamp: string, ghost before: set<string>, ghost accepted: set<string>)
      requires ckan.Valid() && d.name !in before && ckan.orgs.Keys == before + accepted
      requires AllStamped(ckan.orgs, accepted, stamp)
      modifies ckan
      ensures ckan.Valid()
      ensures OrgEvents(ckan.trace) == OrgEvents(old(ckan.trace)) + [Created(d.name)]
      ensures var now := accepted + (if d.name in ckan.refused then {} else {d.name});
              && ckan.orgs.Keys == before + now
              && AllStamped(ckan.orgs, now, stamp)
    {
      ghost var t0 := ckan.trace;
      ghost var emails := ckan.userEmails;
      ghost var accept := d.name !in ckan.orgs && d.name !in ckan.refused;
      ghost var sourceFound := SourceLookup(ckan.sources, Some(d.name), d.dcatUrl).Some?;
      CreateOrganization(d, stamp);
      assert OrgEvents(ckan.trace) == OrgEvents(t0) + [Created(d.name)] by {
        CreateEvents(d, stamp, hash(d), accept, sourceFound, emails, ckan.caller);
        OrgEventsAppend(t0, CreateCalls(d, stamp, hash(d), accept, sourceFound, emails, ckan.caller));
      }
      if accept {
        ghost var created := CreatedOrg(d, stamp, hash(d), emails, ckan.caller);
        assert Stamped(created, stamp) by {
          WrittenOrgsStamped(d, stamp, hash(d), BackendOrg(d.name, d.title, None, None, [], []), emails, ckan.caller);
        }
        StampedInsert(old(ckan.orgs), accepted, stamp, d.name, created);
      }
    }

    /**
     * The update loop of `sync`: update_organization on each record, in order. The
     * organizations stamped before stay stamped, and each updated one is stamped.
     */
    method UpdateAll(update: seq<Org>, stamp: string, ghost stamped: set<string>)
      requires ckan.Valid() && AllStamped(ckan.orgs, stamped, stamp)
      requires forall i :: 0 <= i < |update| ==> update[i].name in ckan.orgs
      modifies ckan
      ensures ckan.Valid()
      ensures OrgEvents(ckan.trace) == OrgEvents(old(ckan.trace)) + PatchedAll(update)
      ensures ckan.orgs.Keys == old(ckan.orgs).Keys
      ensures AllStamped(ckan.orgs, stamped + OrgNames(update), stamp)
    {
      var i := 0;
      while i < |update|
        invariant 0 <= i <= |update|
        invariant ckan.Valid()
        invariant OrgEvents(ckan.trace) == OrgEvents(old(ckan.trace)) + PatchedAll(update[..i])
        invariant ckan.orgs.Keys == old(ckan.orgs).Keys
        invariant AllStamped(ckan.orgs, stamped + OrgNames(update[..i]), stamp)
      {
        assert update[..i + 1][..i] == update[..i];
        assert stamped + OrgNames(update[..i + 1]) == stamped + OrgNames(update[..i]) + {update[i].name};
        assert PatchedAll(update[..i + 1]) == PatchedAll(update[..i]) + [Patched(update[i].name)];
        ghost var t1 := ckan.trace;
        UpdateOne(update[i], stamp, stamped + OrgNames(update[..i]));
        EventsStep(old(ckan.trace), t1, ckan.trace, PatchedAll(update[..i]), Patched(update[i].name));
        i := i + 1;
      }
      assert update[..i] == update;
    }

    /** One round of the update loop: the record's organization is stamped, no stamp is lost. */
    method UpdateOne(d: Org, stamp: string, ghost stamped: set<string>)
      requires ckan.Valid() && d.name in ckan.orgs && AllStamped(ckan.orgs, stamped, stamp)
      modifies ckan
      ensures ckan.Valid()
      ensures OrgEvents(ckan.trace) == OrgEvents(old(ckan.trace)) + [Patched(d.name)]
      ensures ckan.orgs.Keys == old(ckan.orgs).Keys
      ensures AllStamped(ckan.orgs, stamped + {d.name}, stamp)
    {
      ghost var t0 := ckan.trace;
      ghost var emails := ckan.userEmails;
      ghost var stored := ckan.orgs[d.name];
      UpdateOrganization(d, stamp);
      assert OrgEvents(ckan.trace) == OrgEvents(t0) + [Patched(d.name)] by {
        UpdateEvents(d, stamp, hash(d), stored, emails);
        OrgEventsAppend(t0, UpdateCalls(d, stamp, hash(d), stored, emails));
      }
      WrittenOrgsStamped(d, stamp, hash(d), stored, emails, ckan.caller);
    }

    /** The delete loop of `sync`: a hard delete_organization of each record, in order. */
    method DeleteAll(delete: seq<BackendOrg>)
      requires ckan.Valid() && DistinctNames(delete)
      requires forall i :: 0 <= i < |delete| ==> delete[i].name in ckan.orgs
      modifies ckan
      ensures ckan.Valid()
      ensures OrgEvents(ckan.trace) == OrgEvents(old(ckan.trace)) + DeletedAll(delete)
      ensures ckan.orgs == old(ckan.orgs) - NamesOf(delete)
    {
      var i := 0;
      while i < |delete|
        invariant 0 <= i <= |delete|
        invariant ckan.Valid()
        invariant OrgEvents(ckan.trace) == OrgEvents(old(ckan.trace)) + DeletedAll(delete[..i])
        invariant ckan.orgs == old(ckan.orgs) - NamesOf(delete[..i])
      {
        assert delete[..i + 1][..i] == delete[..i];
        assert delete[i].name !in NamesOf(delete[..i]);
        assert DeletedAll(delete[..i + 1]) == DeletedAll(delete[..i]) + [Deleted(delete[i].name)];
        ghost var t1 := ckan.trace;
        DeleteOne(delete[i]);
        EventsStep(old(ckan.trace), t1, ckan.trace, DeletedAll(delete[..i]), Deleted(delete[i].name));
        MapRemoveStep(old(ckan.orgs), NamesOf(delete[..i]), delete[i].name);
        i := i + 1;
      }
      assert delete[..i] == delete;
    }

    /** One round of the delete loop. */
    method DeleteOne(d: BackendOrg)
      requires ckan.Valid() && d.name in ckan.orgs
      modifies ckan
      ensures ckan.Valid()
      ensures OrgEvents(ckan.trace) == OrgEvents(old(ckan.trace)) + [Deleted(d.name)]
      ensures ckan.orgs == old(ckan.orgs) - {d.name}
    {
      ghost var t0 := ckan.trace;
      ghost var source := SourceLookup(ckan.sources, None, DeleteDcatUrl(d));
      ghost var gone := ckan.deleted + ElementsOf(SourcePackage(d, source));
      ghost var listed := Live(ckan.orgs[d.name].packages, gone);
      DeleteOrganization(d, false);
      assert OrgEvents(ckan.trace) == OrgEvents(t0) + [Deleted(d.name)] by {
        DeleteEvents(d, false, source, listed);
        OrgEventsAppend(t0, DeleteCalls(d, false, source, listed));
      }
    }
  }

  /**
   * The loop of delete_organization over the record's extras: the value of the last
   * last_sync_dcat_url extra, None when there is none.
   */
  method StoredDcatUrl(es: seq<Extra>) returns (dcatUrl: Option<string>)
    ensures dcatUrl == LastValue(es, LastSyncDcatUrlKey)
  {
    dcatUrl := None;
    var i := 0;
    while i < |es|
      invariant 0 <= i <= |es|
      invariant dcatUrl == LastValue(es[..i], LastSyncDcatUrlKey)
    {
      assert es[..i + 1][..i] == es[..i];
      if es[i].key != LastSyncDcatUrlKey {
        i := i + 1;
        continue;
      }
      dcatUrl := Some(es[i].value);
      i := i + 1;
    }
    assert es[..i] == es;
  }

  lemma DeletePackageStep(packages: seq<string>, i: nat)
    requires i < |packages|
    ensures ElementsOf(packages[..i + 1]) == ElementsOf(packages[..i]) + {packages[i]}
    ensures PackageDeletes(packages[..i + 1]) == PackageDeletes(packages[..i]) + [PackageDelete(packages[i])]
  {
    assert packages[..i + 1] == packages[..i] + [packages[i]];
  }

  lemma ValidOrgsStep(raws: seq<RawOrg>, i: nat, defaultEmail: string, slugify: string -> string)
    requires i < |raws|
    ensures ValidOrgs(raws[..i + 1], defaultEmail, slugify) ==
            ValidOrgs(raws[..i], defaultEmail, slugify) + Accepted(ValidateOrg(raws[i], defaultEmail, slugify))
  {
    assert raws[..i + 1][..i] == raws[..i];
  }

  lemma ClassifyStep(valid: seq<Org>, o: Org, known: set<string>)
    ensures CreateList(valid + [o], known) == CreateList(valid, known) + (if o.name in known then [] else [o])
    ensures UpdateList(valid + [o], known) == UpdateList(valid, known) + (if o.name in known then [o] else [])
    ensures Lookups(valid + [o]) == Lookups(valid) + [OrganizationShow(o.name)]
  {
    assert (valid + [o])[..|valid|] == valid;
  }

  /** The organizations a sync keeps: every updated one, and every created one that was not refused. */
  lemma KeptCovers(create: seq<Org>, update: seq<Org>, refused: set<string>)
    ensures forall o :: o in update ==> o.name in AcceptedNames(create, refused) + OrgNames(update)
    ensures forall o :: o in create && o.name !in refused ==> o.name in AcceptedNames(create, refused) + OrgNames(update)
  {
    forall o | o in update
      ensures o.name in OrgNames(update)
    {
      var i :| 0 <= i < |update| && update[i] == o;
    }
    forall o | o in create && o.name !in refused
      ensures o.name in AcceptedNames(create, refused)
    {
      var i :| 0 <= i < |create| && create[i] == o;
    }
  }

  /** Every named organization is held and stamped. */
  ghost predicate AllStamped(orgs: map<string, BackendOrg>, names: set<string>, stamp: string) {
    forall n :: n in names ==> n in orgs && Stamped(orgs[n], stamp)
  }

  /** Storing a stamped organization keeps every stamp and adds its own. */
  lemma StampedInsert(orgs: map<string, BackendOrg>, names: set<string>, stamp: string, k: string, o: BackendOrg)
    requires AllStamped(orgs, names, stamp) && Stamped(o, stamp)
    ensures AllStamped(orgs[k := o], names + {k}, stamp)
  {
  }

  /** The slugs of a list of feed records: `Reconcile.NamesOf` is the same over the organizations the backend holds, which are of another type. */
  function OrgNames(os: seq<Org>): (r: set<string>)
    ensures forall n :: n in r <==> exists i :: 0 <= i < |os| && os[i].name == n
  {
    if os == [] then {} else OrgNames(os[..|os| - 1]) + {os[|os| - 1].name}
  }

  lemma MapRemoveStep(m: map<string, BackendOrg>, gone: set<string>, n: string)
    ensures (m - gone) - {n} == m - (gone + {n})
  {
  }

  /** The records `sync` reads: None when the fetch fails or the content is not JSON. */
  function Feed(net: nat -> Attempt, parse: string -> Option<seq<RawOrg>>): Option<seq<RawOrg>> {
    match FeedGate(FetchFeed(net).response)
    case Proceed(content) => parse(content)
    case _ => None
  }

  /**
   * After the delete loop removed the names the delete list holds, every remaining
   * organization is one the last_sync rule keeps, and every deleted record is gone.
   */
  lemma SurvivorsKept(listed: map<string, BackendOrg>, remaining: map<string, BackendOrg>, gone: set<string>,
                      delete: seq<BackendOrg>, today: Date)
    requires remaining == listed - gone && gone == NamesOf(delete)
    requires forall k :: k in listed ==>
               && DeleteEligible(listed[k], today).Some?
               && (k in gone <==> DeleteEligible(listed[k], today) == Some(true))
    requires forall o :: o in delete ==> DeleteEligible(o, today) == Some(true)
    ensures forall n :: n in remaining ==> DeleteEligible(remaining[n], today) == Some(false)
    ensures forall o :: o in delete ==> o.name !in remaining && DeleteEligible(o, today) == Some(true)
  {
    forall o | o in delete
      ensures o.name in gone
    {
      var i :| 0 <= i < |delete| && delete[i] == o;
    }
    forall n | n in remaining
      ensures DeleteEligible(remaining[n], today) == Some(false)
    {
      assert n in listed && n !in gone && remaining[n] == listed[n];
      var e := DeleteEligible(listed[n], today);
      assert e.Some? && e != Some(true);
      if e.value {
        assert false;
      }
    }
  }

  /** Organizations stamped with today's NOW_STR when the backend was listed survive the delete loop. */
  lemma StampedKept(listed: map<string, BackendOrg>, gone: set<string>, names: set<string>, now: DateTime)
    requires ValidDateTime(now) && AllStamped(listed, names, FormatStamp(now))
    requires forall k :: k in listed ==> (k in gone <==> DeleteEligible(listed[k], now.date) == Some(true))
    ensures forall n :: n in names ==> n in listed - gone
  {
    forall n | n in names
      ensures n in listed - gone
    {
      SyncedTodayKept(listed[n], now);
    }
  }
}
