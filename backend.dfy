/**
 * The CKAN action API as the organization sync script sees it: an in-memory
 * store of organizations, harvest sources and users, and the trace of every
 * action call made against it, in order.
 */
module Backend {
  import opened Common

  datatype Extra = Extra(key: string, value: string)

  /**
   * An organization as organization_show / organization_list return it. The
   * model uses its name as its id. `url` is a top-level 'url' key, which the
   * records may lack; the sync script stores the url among the extras.
   */
  datatype BackendOrg = BackendOrg(name: string, title: string, url: Option<string>,
                                   extras: Option<seq<Extra>>, users: seq<nat>,
                                   packages: seq<string>)

  /** A harvest source; the model uses its name as its id. */
  datatype HarvestSource = HarvestSource(name: string, title: string, url: string,
                                         ownerOrg: string, frequency: string, sourceType: string)

  /** One action call, with the arguments the sync script passes. */
  datatype Call =
    | OrganizationShow(id: string)
    | OrganizationCreate(name: string, title: string, extras: seq<Extra>)
    | OrganizationPatch(id: string, newTitle: Option<string>, extras: seq<Extra>)
    | OrganizationDelete(id: string)
    | OrganizationList
    | HarvestSourceShow(lookupId: Option<string>, url: string)
    | HarvestSourcePatch(sourceId: string, ownerOrg: string, url: string)
    | HarvestSourceCreate(name: string, title: string, url: string, ownerOrg: string,
                          frequency: string, sourceType: string)
    | HarvestJobCreate(sourceId: string)
    | HarvestSourceClear(sourceId: string)
    | HarvestSourceDelete(sourceId: string)
    | PackageDelete(id: string)
    | UserShow(user: nat)
    | UserInvite(email: string, groupId: string, role: string)

  /** The two fields harvest_source_show can look a source up by. */
  datatype SourceKey = ByName | ByUrl

  function KeyOf(source: HarvestSource, key: SourceKey): string {
    if key == ByName then source.name else source.url
  }

  /** Index of the first source whose `key` field is `value`. */
  function FindSource(sources: seq<HarvestSource>, key: SourceKey, value: string): (r: Option<nat>)
    ensures r.Some? ==> r.value < |sources|
  {
    if sources == [] then None
    else if KeyOf(sources[0], key) == value then Some(0)
    else match FindSource(sources[1..], key, value)
      case None => None
      case Some(k) => Some(k + 1)
  }

  /** FindSource finds the first source with the value, and None means there is none. */
  lemma {:induction false} FindSourceFirst(sources: seq<HarvestSource>, key: SourceKey, value: string)
    ensures var r := FindSource(sources, key, value);
            && (r.Some? ==> KeyOf(sources[r.value], key) == value &&
                            forall j :: 0 <= j < r.value ==> KeyOf(sources[j], key) != value)
            && (r.None? ==> forall j :: 0 <= j < |sources| ==> KeyOf(sources[j], key) != value)
  {
    if sources != [] && KeyOf(sources[0], key) != value {
      FindSourceFirst(sources[1..], key, value);
    }
  }

  /** The sources after harvest_source_patch of the source named `id`. */
  function PatchSource(sources: seq<HarvestSource>, id: string, owner: string, url: string): seq<HarvestSource> {
    match FindSource(sources, ByName, id)
    case None => sources
    case Some(i) => sources[i := sources[i].(ownerOrg := owner, url := url)]
  }

  /** The sources after harvest_source_delete of the source named `id`. */
  function DeleteSource(sources: seq<HarvestSource>, id: string): seq<HarvestSource> {
    match FindSource(sources, ByName, id)
    case None => sources
    case Some(i) => sources[..i] + sources[i + 1..]
  }

  /** The packages of a list that have not been deleted, in order. */
  function Live(packages: seq<string>, deleted: set<string>): (r: seq<string>)
    ensures forall q :: q in r <==> q in packages && q !in deleted
    ensures |r| <= |packages|
  {
    if packages == [] then []
    else if packages[0] in deleted then Live(packages[1..], deleted)
    else [packages[0]] + Live(packages[1..], deleted)
  }

  /** The set of names a list holds. */
  function ElementsOf(s: seq<string>): (r: set<string>)
    ensures forall x :: x in r <==> x in s
  {
    set x | x in s
  }

  /** A list whose every package is deleted shows none. */
  lemma {:induction false} LiveAllDeleted(packages: seq<string>, deleted: set<string>)
    requires forall q :: q in packages ==> q in deleted
    ensures Live(packages, deleted) == []
  {
    if packages != [] {
      assert packages[0] in packages;
      LiveAllDeleted(packages[1..], deleted);
    }
  }

  /** Deleting every package a list still shows leaves it showing none. */
  lemma LiveAfterDeletingLive(packages: seq<string>, deleted: set<string>)
    ensures Live(packages, deleted + ElementsOf(Live(packages, deleted))) == []
  {
    LiveAllDeleted(packages, deleted + ElementsOf(Live(packages, deleted)));
  }

  /** An organization as the API shows it: without its deleted packages. */
  function Visible(o: BackendOrg, deleted: set<string>): BackendOrg {
    o.(packages := Live(o.packages, deleted))
  }

  class Ckan {
    var orgs: map<string, BackendOrg>
    var sources: seq<HarvestSource>
    /** The email of each user, indexed by user. */
    var userEmails: seq<string>
    /** The packages package_delete has marked deleted. */
    var deleted: set<string>
    /** Every action call made so far. */
    var trace: seq<Call>
    /** Organization names that organization_create refuses with a ValidationError. */
    const refused: set<string>
    /** The user whose API key the script uses; CKAN makes it a member of what it creates. */
    const caller: nat

    /** Each organization is stored under its name and its members are known users. */
    ghost predicate Valid()
      reads this
    {
      caller < |userEmails| &&
      forall k :: k in orgs ==> orgs[k].name == k && UsersKnown(orgs[k].users)
    }

    ghost predicate UsersKnown(users: seq<nat>)
      reads this
    {
      forall i :: 0 <= i < |users| ==> users[i] < |userEmails|
    }

    constructor (orgs: map<string, BackendOrg>, sources: seq<HarvestSource>,
                 userEmails: seq<string>, refused: set<string>, caller: nat)
      requires caller < |userEmails|
      requires forall k :: k in orgs ==>
                 orgs[k].name == k && forall i :: 0 <= i < |orgs[k].users| ==> orgs[k].users[i] < |userEmails|
      ensures Valid()
      ensures this.orgs == orgs && this.sources == sources && this.userEmails == userEmails
      ensures this.refused == refused && this.caller == caller && trace == [] && deleted == {}
    {
      this.deleted := {};
      this.orgs := orgs;
      this.sources := sources;
      this.userEmails := userEmails;
      this.refused := refused;
      this.caller := caller;
      trace := [];
    }

    method OrganizationShowAction(id: string) returns (org: Option<BackendOrg>)
      modifies this
      ensures trace == old(trace) + [OrganizationShow(id)]
      ensures deleted == old(deleted)
      ensures orgs == old(orgs) && sources == old(sources) && userEmails == old(userEmails)
      ensures org == if id in orgs then Some(Visible(orgs[id], deleted)) else None
    {
      trace := trace + [OrganizationShow(id)];
      org := if id in orgs then Some(Visible(orgs[id], deleted)) else None;
    }

    /**
     * None is the ValidationError: the name is taken or refused. The new
     * organization has the calling user as its one member.
     */
    method OrganizationCreateAction(name: string, title: string, extras: seq<Extra>)
      returns (org: Option<BackendOrg>)
      requires Valid()
      modifies this
      ensures Valid()
      ensures trace == old(trace) + [OrganizationCreate(name, title, extras)]
      ensures deleted == old(deleted)
      ensures sources == old(sources) && userEmails == old(userEmails)
      ensures if name in old(orgs) || name in refused
              then org.None? && orgs == old(orgs)
              else org == Some(BackendOrg(name, title, None, Some(extras), [caller], [])) &&
                   orgs == old(orgs)[name := org.value]
    {
      trace := trace + [OrganizationCreate(name, title, extras)];
      if name in orgs || name in refused {
        org := None;
      } else {
        org := Some(BackendOrg(name, title, None, Some(extras), [caller], []));
        orgs := orgs[name := org.value];
      }
    }

    /** organization_patch: the extras list is replaced, the title only when given. */
    method OrganizationPatchAction(id: string, title: Option<string>, extras: seq<Extra>)
      requires Valid() && id in orgs
      modifies this
      ensures Valid()
      ensures trace == old(trace) + [OrganizationPatch(id, title, extras)]
      ensures deleted == old(deleted)
      ensures sources == old(sources) && userEmails == old(userEmails)
      ensures orgs == old(orgs)[id := old(orgs)[id].(
                title := if title.Some? then title.value else old(orgs)[id].title,
                extras := Some(extras))]
    {
      trace := trace + [OrganizationPatch(id, title, extras)];
      var o := orgs[id];
      orgs := orgs[id := o.(title := if title.Some? then title.value else o.title,
                            extras := Some(extras))];
    }

    method OrganizationDeleteAction(id: string)
      requires Valid()
      modifies this
      ensures Valid()
      ensures trace == old(trace) + [OrganizationDelete(id)]
      ensures deleted == old(deleted)
      ensures sources == old(sources) && userEmails == old(userEmails)
      ensures orgs == old(orgs) - {id}
    {
      trace := trace + [OrganizationDelete(id)];
      orgs := orgs - {id};
    }

    /** organization_list(include_extras, all_fields): every organization once, in some order. */
    method OrganizationListAction() returns (listing: seq<BackendOrg>)
      requires Valid()
      modifies this
      ensures trace == old(trace) + [OrganizationList]
      ensures deleted == old(deleted)
      ensures orgs == old(orgs) && sources == old(sources) && userEmails == old(userEmails)
      ensures forall i :: 0 <= i < |listing| ==>
                listing[i].name in orgs && Visible(orgs[listing[i].name], deleted) == listing[i]
      ensures forall i, j :: 0 <= i < j < |listing| ==> listing[i].name != listing[j].name
      ensures forall k :: k in orgs ==> exists i :: 0 <= i < |listing| && listing[i].name == k
    {
      trace := trace + [OrganizationList];
      var names: seq<string> := [];
      var rest := orgs.Keys;
      while rest != {}
        invariant rest <= orgs.Keys
        invariant forall i :: 0 <= i < |names| ==> names[i] in orgs && names[i] !in rest
        invariant forall i, j :: 0 <= i < j < |names| ==> names[i] != names[j]
        invariant forall k :: k in orgs && k !in rest ==> k in names
        decreases rest
      {
        var k :| k in rest;
        names := names + [k];
        rest := rest - {k};
      }
      listing := VisibleAll(orgs, names, deleted);
      forall k | k in orgs
        ensures exists i :: 0 <= i < |listing| && listing[i].name == k
      {
        var i :| 0 <= i < |names| && names[i] == k;
        assert listing[i].name == k;
      }
    }

    method HarvestSourceShowAction(id: Option<string>, url: string) returns (source: Option<HarvestSource>)
      modifies this
      ensures trace == old(trace) + [HarvestSourceShow(id, url)]
      ensures deleted == old(deleted)
      ensures orgs == old(orgs) && sources == old(sources) && userEmails == old(userEmails)
      ensures source == SourceLookup(sources, id, url)
    {
      trace := trace + [HarvestSourceShow(id, url)];
      source := SourceLookup(sources, id, url);
    }

    method HarvestSourcePatchAction(id: string, owner: string, url: string)
      modifies this
      ensures trace == old(trace) + [HarvestSourcePatch(id, owner, url)]
      ensures deleted == old(deleted)
      ensures orgs == old(orgs) && userEmails == old(userEmails)
      ensures sources == PatchSource(old(sources), id, owner, url)
    {
      trace := trace + [HarvestSourcePatch(id, owner, url)];
      sources := PatchSource(sources, id, owner, url);
    }

    method HarvestSourceCreateAction(name: string, title: string, url: string, owner: string,
                                     frequency: string, sourceType: string)
      returns (source: HarvestSource)
      modifies this
      ensures trace == old(trace) + [HarvestSourceCreate(name, title, url, owner, frequency, sourceType)]
      ensures deleted == old(deleted)
      ensures orgs == old(orgs) && userEmails == old(userEmails)
      ensures source == HarvestSource(name, title, url, owner, frequency, sourceType)
      ensures sources == old(sources) + [source]
    {
      trace := trace + [HarvestSourceCreate(name, title, url, owner, frequency, sourceType)];
      source := HarvestSource(name, title, url, owner, frequency, sourceType);
      sources := sources + [source];
    }

    method HarvestJobCreateAction(sourceId: string)
      modifies this
      ensures trace == old(trace) + [HarvestJobCreate(sourceId)]
      ensures deleted == old(deleted)
      ensures orgs == old(orgs) && sources == old(sources) && userEmails == old(userEmails)
    {
      trace := trace + [HarvestJobCreate(sourceId)];
    }

    method HarvestSourceClearAction(sourceId: string)
      modifies this
      ensures trace == old(trace) + [HarvestSourceClear(sourceId)]
      ensures deleted == old(deleted)
      ensures orgs == old(orgs) && sources == old(sources) && userEmails == old(userEmails)
    {
      trace := trace + [HarvestSourceClear(sourceId)];
    }

    method HarvestSourceDeleteAction(sourceId: string)
      modifies this
      ensures trace == old(trace) + [HarvestSourceDelete(sourceId)]
      ensures deleted == old(deleted)
      ensures orgs == old(orgs) && userEmails == old(userEmails)
      ensures sources == DeleteSource(old(sources), sourceId)
    {
      trace := trace + [HarvestSourceDelete(sourceId)];
      sources := DeleteSource(sources, sourceId);
    }

    /** package_delete: the package is marked deleted and no organization shows it any more. */
    method PackageDeleteAction(id: string)
      modifies this
      ensures trace == old(trace) + [PackageDelete(id)]
      ensures orgs == old(orgs) && sources == old(sources) && userEmails == old(userEmails)
      ensures deleted == old(deleted) + {id}
    {
      trace := trace + [PackageDelete(id)];
      deleted := deleted + {id};
    }

    method UserShowAction(user: nat) returns (email: string)
      requires user < |userEmails|
      modifies this
      ensures trace == old(trace) + [UserShow(user)]
      ensures deleted == old(deleted)
      ensures orgs == old(orgs) && sources == old(sources) && userEmails == old(userEmails)
      ensures email == userEmails[user]
    {
      trace := trace + [UserShow(user)];
      email := userEmails[user];
    }

    /** user_invite: a new user with this email joins the organization. */
    method UserInviteAction(email: string, groupId: string, role: string)
      requires Valid() && groupId in orgs
      modifies this
      ensures Valid()
      ensures trace == old(trace) + [UserInvite(email, groupId, role)]
      ensures deleted == old(deleted)
      ensures sources == old(sources)
      ensures userEmails == old(userEmails) + [email]
      ensures orgs == old(orgs)[groupId := old(orgs)[groupId].(
                users := old(orgs)[groupId].users + [|old(userEmails)|])]
    {
      trace := trace + [UserInvite(email, groupId, role)];
      var o := orgs[groupId];
      orgs := orgs[groupId := o.(users := o.users + [|userEmails|])];
      userEmails := userEmails + [email];
    }
  }

  /** The listed organizations, in the order of `names`, as the API shows them. */
  function VisibleAll(orgs: map<string, BackendOrg>, names: seq<string>, deleted: set<string>): (r: seq<BackendOrg>)
    requires forall i :: 0 <= i < |names| ==> names[i] in orgs
    ensures |r| == |names|
    ensures forall i :: 0 <= i < |names| ==> r[i] == Visible(orgs[names[i]], deleted)
  {
    if names == [] then []
    else VisibleAll(orgs, names[..|names| - 1], deleted) + [Visible(orgs[names[|names| - 1]], deleted)]
  }

  /** harvest_source_show: by name when an id is given, otherwise by url. */
  function SourceLookup(sources: seq<HarvestSource>, id: Option<string>, url: string): Option<HarvestSource> {
    var i := if id.Some? then FindSource(sources, ByName, id.value) else FindSource(sources, ByUrl, url);
    if i.Some? then Some(sources[i.value]) else None
  }

  /** Patching a harvest source twice with the same values is patching it once. */
  lemma PatchSourceTwice(sources: seq<HarvestSource>, id: string, owner: string, url: string)
    ensures PatchSource(PatchSource(sources, id, owner, url), id, owner, url) == PatchSource(sources, id, owner, url)
  {
    var once := PatchSource(sources, id, owner, url);
    assert |once| == |sources| && forall j :: 0 <= j < |sources| ==> once[j].name == sources[j].name;
    var r := FindSource(sources, ByName, id);
    var r' := FindSource(once, ByName, id);
    FindSourceFirst(sources, ByName, id);
    FindSourceFirst(once, ByName, id);
    if r.Some? {
      var i := r.value;
      assert once[i].name == id;
      assert r' == r;
    }
  }
}
