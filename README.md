# Organization sync for oppnadata.se, modelled in Dafny

This project models the reconciliation core of the Swedish open-data portal's CKAN
extension. It also models two small pieces of the DCAT plugin.

**The sync script** (`scripts/oppnadata_org_sync.py`, class `OppnaDataOrgSync`):
- It fetches the organization feed (`get`, with its retry recursion).
- It normalizes every entry (`_check_unicode`, `_validate_org`).
- It classifies each accepted record as new or known by looking its slug up.
- It creates the new organizations: organization, harvest source, first harvest job and admin invite.
- It updates the known ones: change detection through `last_sync_hash`, the harvest-source patch, and a closing `organization_patch`.
- It hard-deletes every listed organization that the `last_sync` rule marks, after removing its harvest source and packages.

**The DCAT plugin** (`ckanext/sweden/dcat`):
- `after_download` posts the downloaded document to the validation service and decides from the answer which errors are reported and whether the harvest goes on.
- `get_localized_value` looks DCAT-AP labels up in a translation table, one item at a time for a list literal.

Files:

- `common.dfy`: Option, digits, `Repeat`.
- `stamps.dfy`: the `'%Y-%m-%d %H:%M'` format that `NOW_STR` writes, and the grammar with which `parse_datetime` (Python 2.7 `strptime`) reads it. `strptime` also accepts one-digit fields, a space-padded day and any run of whitespace before the time. Parsing what `NOW_STR` wrote gives the reading back; formatting a parsed reading gives the string back exactly when the string had `NOW_STR`'s zero-padded shape.
- `normalize.dfy`: `_check_unicode` and `_validate_org`.
- `fetch.dfy`: `get` and the fetch gate at the start of `sync`.
- `backend.dfy`: a class `Ckan` that stands in for the remote CKAN API. It holds the organizations, harvest sources, user emails and deleted packages. Each action appends one `Call` to a trace and updates the state as CKAN would, except that a deleted organization leaves the store (see Left out).
- `reconcile.dfy`: pure definitions and lemmas:
  - the call sequence of each per-organization action;
  - the organization events of a trace (create, patch, delete);
  - the delete-eligibility rule;
  - the classification of the feed.
- `orgsync.dfy`: the class `OppnaDataOrgSync`. Its methods run against a `Ckan` and are proved to issue exactly the calls `reconcile.dfy` describes and to leave the state those calls produce. It also holds `sync` itself.
- `validation.dfy`: `after_download`.
- `localized.dfy`: `get_localized_value`.

Behaviour of the script worth noting:
- `get` with the default `retry=6` makes up to seven requests: the first one and six retries.
- `update_organization` always ends in `organization_patch` with a fresh `last_sync` and hash. Only the title and the `url` extra depend on a detected change.
- The script catches these exceptions:
  - any failure of `requests.get` in `get`, which leads to a retry while retries remain;
  - the `ValueError` of `json.loads` on the feed, which logs the failure and exits with status 1;
  - the `NotFound` of `organization_show` in the classification loop, which makes a record new;
  - the `NotFound` of `harvest_source_show` in `create_organization` and `delete_organization`;
  - the `ValidationError` of `organization_create`, the only one caught from a CKAN write call.
- Every other exception ends the run. The one the model follows is the `ValueError` of `parse_datetime` on a stored `last_sync` value, which ends the run as `Crashed` before the delete loop.
- `sync` always deletes hard: `delete_organization` is called with `soft_delete=False`.
- When every fetch attempt fails, the script raises `AttributeError` instead of exiting with status 1 (see Findings).

## Model

| member | source | states |
|---|---|---|
| `Stamps.ParseStamp` | scripts/oppnadata_org_sync.py:48-52 | a string parses only when strptime's grammar splits it into fields (1-2 digit month, day, hour and minute, a day that may be space-padded, one or more whitespace characters before the time, nothing left over) that name a real date and time, and the reading is that of the fields; a ValueError is None |
| `Stamps.Split` | scripts/oppnadata_org_sync.py:48-52 | whatever strptime's matcher splits off is a well-formed set of fields |
| `Stamps.SplitLexed` | scripts/oppnadata_org_sync.py:48-52 | a layout of fields each of which is a maximal digit or whitespace run is split back into those fields exactly when they are well formed |
| `Stamps.SplitSound` | scripts/oppnadata_org_sync.py:48-52 | every split the matcher makes lays back out to the string it came from |
| `Stamps.SplitComplete` | scripts/oppnadata_org_sync.py:48-52 | every well-formed set of fields is matched from its layout |
| `Stamps.ParseStampIff` | scripts/oppnadata_org_sync.py:48-52 | parse_datetime returns a reading exactly when the reading is a valid date and time and some well-formed fields lay out to the string and read as it |
| `Stamps.ShortFieldsAccepted` | scripts/oppnadata_org_sync.py:48-52 | `"2024-1-5 9:07"`, with one-digit month, day and hour, parses to 5 January 2024 09:07 |
| `Stamps.FormatStamp` | scripts/oppnadata_org_sync.py:35-37 | NOW_STR writes a 16-character string, the zero-padded layout of the reading |
| `Stamps.FormatShape` | scripts/oppnadata_org_sync.py:35-37 | what NOW_STR writes has the `YYYY-MM-DD HH:MM` shape |
| `Stamps.ParseFormatRoundTrip` | scripts/oppnadata_org_sync.py:35-52 | every valid clock reading that `NOW_STR` formats is parsed back by `parse_datetime` to the same reading |
| `Stamps.FormatParseRoundTrip` | scripts/oppnadata_org_sync.py:35-52 | a string `parse_datetime` accepts is exactly what `NOW_STR` writes for the parsed reading if and only if it has the zero-padded `YYYY-MM-DD HH:MM` shape; the lenient forms are accepted but not reproduced |
| `Normalize.CheckUnicode` | scripts/oppnadata_org_sync.py:83-100 | a missing or empty value becomes None; any other value passes through unchanged |
| `Normalize.RemoveSpaces` | scripts/oppnadata_org_sync.py:111-116 | the result has no space, and is the input itself when that had no space |
| `Normalize.RemoveSpacesCount` | scripts/oppnadata_org_sync.py:111-116 | the result holds every other character as often as the input does, and no space |
| `Normalize.RemoveSpacesAppend` | scripts/oppnadata_org_sync.py:111-116 | removing spaces from a concatenation is removing them from each part and concatenating, so the order of the kept characters is the input's |
| `Normalize.RemoveSpacesChar` | scripts/oppnadata_org_sync.py:111-116 | a single space is removed and any other single character kept |
| `Normalize.ValidateOrg` | scripts/oppnadata_org_sync.py:102-132 | an entry is rejected exactly when its name or url is missing or empty; otherwise the record has the name as title, its slug as name, the url without spaces, the dct_url without spaces or else url + `/datasets/dcat`, and the email or else the default |
| `Normalize.ValidateIdempotent` | scripts/oppnadata_org_sync.py:102-132 | validating an accepted record again gives the same record, unless a url or dct_url of spaces alone was emptied |
| `Fetch.Get` | scripts/oppnadata_org_sync.py:135-147 | requests stop at the first one that returns; at most retry + 1 are made; every earlier one raised; the result is None exactly when all retry + 1 raised |
| `Fetch.FetchFeedBound` | scripts/oppnadata_org_sync.py:135-147 | the feed fetch makes at most 7 requests and gives up exactly when all 7 raise |
| `Fetch.FeedGateAsWritten` | scripts/oppnadata_org_sync.py:331-335 | the gate as written raises AttributeError when `get` returned None, exits with status 1 on any other status than 200, and lets a status-200 response through with its content |
| `Fetch.FeedGate` | scripts/oppnadata_org_sync.py:331-335 | the corrected gate lets the content through exactly when a response with status 200 came back, and exits with status 1 otherwise |
| `Fetch.GateCrashesWhenFetchGivesUp` | scripts/oppnadata_org_sync.py:331-335 | when all 7 requests raise, the gate as written raises AttributeError, where the corrected gate exits with status 1 |
| `Backend.Live` | scripts/oppnadata_org_sync.py:320-325 | the packages organization_show lists are those of the organization not yet deleted |
| `Backend.LiveAfterDeletingLive` | scripts/oppnadata_org_sync.py:320-325 | after each listed package is deleted, the organization lists no package |
| `Backend.PatchSourceTwice` | scripts/oppnadata_org_sync.py:255-273 | patching the same harvest source twice with the same owner and url is patching it once |
| `Backend.Ckan.OrganizationShowAction` | scripts/oppnadata_org_sync.py:251-253 | organization_show gives the stored organization, with its deleted packages hidden, or None (NotFound); nothing changes |
| `Backend.Ckan.OrganizationCreateAction` | scripts/oppnadata_org_sync.py:190-194 | organization_create stores an organization with the given title and extras and the calling user as its only member, unless the name is taken or refused (ValidationError) |
| `Backend.Ckan.OrganizationPatchAction` | scripts/oppnadata_org_sync.py:282 | organization_patch replaces the extras, and the title when one is sent |
| `Backend.Ckan.OrganizationDeleteAction` | scripts/oppnadata_org_sync.py:327-328 | organization_delete takes the organization out of the store the rest of the run reads |
| `Backend.Ckan.OrganizationListAction` | scripts/oppnadata_org_sync.py:377-380 | organization_list gives every stored organization exactly once, as organization_show would |
| `Backend.Ckan.HarvestSourceShowAction` | scripts/oppnadata_org_sync.py:302-307 | harvest_source_show gives the first source with that name when an id is given, and otherwise the first with that url; nothing changes |
| `Backend.Ckan.HarvestSourcePatchAction` | scripts/oppnadata_org_sync.py:207-212 | harvest_source_patch sets the owner and url of the named source |
| `Backend.Ckan.HarvestSourceCreateAction` | scripts/oppnadata_org_sync.py:217-226 | harvest_source_create appends the new weekly dcat_rdf source |
| `Backend.Ckan.HarvestJobCreateAction` | scripts/oppnadata_org_sync.py:231-235 | harvest_job_create is recorded and changes no stored entity |
| `Backend.Ckan.HarvestSourceClearAction` | scripts/oppnadata_org_sync.py:310-311 | harvest_source_clear is recorded and changes no modelled entity |
| `Backend.Ckan.HarvestSourceDeleteAction` | scripts/oppnadata_org_sync.py:313-314 | harvest_source_delete removes the named source |
| `Backend.Ckan.PackageDeleteAction` | scripts/oppnadata_org_sync.py:324-325 | package_delete marks the package deleted |
| `Backend.Ckan.UserShowAction` | scripts/oppnadata_org_sync.py:155-156 | user_show gives the user's email |
| `Backend.Ckan.UserInviteAction` | scripts/oppnadata_org_sync.py:163-170 | user_invite creates a user with that email and adds it to the organization's members |
| `Reconcile.CreatedAll` | scripts/oppnadata_org_sync.py:370-371 | the create loop's events: one creation per record, in order |
| `Reconcile.PatchedAll` | scripts/oppnadata_org_sync.py:373-374 | the update loop's events: one patch per record, in order |
| `Reconcile.DeletedAll` | scripts/oppnadata_org_sync.py:404 | the delete loop's events: one deletion per listed record, in order |
| `Reconcile.FirstMatch` | scripts/oppnadata_org_sync.py:154-160 | the position where the member loop breaks is within the member list |
| `Reconcile.FirstMatchFirst` | scripts/oppnadata_org_sync.py:154-160 | no member before that position has the email, and the one at it does |
| `Reconcile.FirstMatchFound` | scripts/oppnadata_org_sync.py:151-163 | the loop breaks early exactly when some member has the email |
| `Reconcile.UserCallsShape` | scripts/oppnadata_org_sync.py:149-173 | _process_users issues user_show on a prefix of the members, then one admin invite exactly when it invites |
| `Reconcile.ProcessUsersInvite` | scripts/oppnadata_org_sync.py:149-173 | exactly one admin invite is sent when the email is set and no member has it, and none otherwise |
| `Reconcile.ProcessUsersOutcome` | scripts/oppnadata_org_sync.py:149-173 | existing members and users are kept, and afterwards some member has the email whenever it is set |
| `Reconcile.UserCallsQuiet` | scripts/oppnadata_org_sync.py:149-173 | _process_users creates, patches and deletes no organization |
| `Reconcile.OneMember` | scripts/oppnadata_org_sync.py:151-160 | an organization whose only member is the calling user has a member with the email exactly when the caller's email is it |
| `Reconcile.CreateEvents` | scripts/oppnadata_org_sync.py:176-238 | create_organization's only organization event is the creation of that slug, whether or not it is refused |
| `Reconcile.FollowUpQuiet` | scripts/oppnadata_org_sync.py:200-238 | what follows organization_create creates, patches and deletes no organization |
| `Reconcile.CreateSourceOutcome` | scripts/oppnadata_org_sync.py:190-236 | a refused create issues nothing more; otherwise a found source is patched, or a missing one created and given a first job; there is exactly one job exactly then |
| `Reconcile.SourceJobs` | scripts/oppnadata_org_sync.py:216-236 | a harvest job is created exactly when the source was not found |
| `Reconcile.CreateInvites` | scripts/oppnadata_org_sync.py:176-238 | a create invites one admin exactly when it was accepted, the email is set and it differs from the email of the calling user, whom CKAN made the only member |
| `Reconcile.HashMismatchesPositive` | scripts/oppnadata_org_sync.py:255-258 | a change is detected at least once exactly when a stored last_sync_hash differs from the new hash; at most once when extras keys are unique |
| `Reconcile.UpdateTailOfShown` | scripts/oppnadata_org_sync.py:251-282 | the calls after organization_show depend only on the extras and members it returned |
| `Reconcile.UpdateEvents` | scripts/oppnadata_org_sync.py:240-282 | an update's only organization event is one patch, the last call, and it carries a fresh last_sync |
| `Reconcile.UpdateTailEvents` | scripts/oppnadata_org_sync.py:255-282 | after organization_show the only organization event is the closing patch |
| `Reconcile.SourcePatchesQuiet` | scripts/oppnadata_org_sync.py:268-273 | harvest-source patches are no organization events |
| `Reconcile.UpdateSourcePatchCount` | scripts/oppnadata_org_sync.py:255-282 | one harvest_source_patch is issued per differing stored hash, and the update ends in the final organization_patch |
| `Reconcile.UserCallsNoPatch` | scripts/oppnadata_org_sync.py:149-173 | _process_users patches no harvest source |
| `Reconcile.UpdateChangeDetection` | scripts/oppnadata_org_sync.py:255-276 | the harvest source is patched, and the title sent, exactly when a stored last_sync_hash differs from the new one; at most one patch when extras keys are unique |
| `Reconcile.CreateThenUpdateUnchanged` | scripts/oppnadata_org_sync.py:184-258 | the hash create_organization stores is one update_organization finds unchanged: no harvest-source patch and no title follow |
| `Reconcile.LastValue` | scripts/oppnadata_org_sync.py:292-297 | the delete url lookup gives None exactly when no extra has the key, and otherwise the value of the last extra with it |
| `Reconcile.PackageDeletes` | scripts/oppnadata_org_sync.py:324-325 | one package_delete per listed package, in order |
| `Reconcile.DeleteEvents` | scripts/oppnadata_org_sync.py:284-328 | a delete's only organization event is the deletion of that slug, issued last; a soft delete issues nothing else |
| `Reconcile.PrefixQuiet` | scripts/oppnadata_org_sync.py:292-325 | the harvest-source and package removal before organization_delete touches no organization |
| `Reconcile.HardDeleteOrder` | scripts/oppnadata_org_sync.py:292-328 | a hard delete first looks up the source by url, clears then deletes a found source, and deletes every listed package before the organization |
| `Reconcile.HardDeletePackageCount` | scripts/oppnadata_org_sync.py:302-325 | a hard delete issues one package_delete for a found source plus one per listed package when the record counts packages |
| `Reconcile.SourceRemovalCount` | scripts/oppnadata_org_sync.py:309-316 | removing a found source deletes exactly one package, and a missing source deletes none |
| `Reconcile.PackageRemovalCount` | scripts/oppnadata_org_sync.py:318-325 | the package step deletes each listed package when the record counts some, and nothing otherwise |
| `Reconcile.EligibleFromIff` | scripts/oppnadata_org_sync.py:383-399 | when every last_sync parses, the extras loop marks a record exactly when it has no last_sync or one of them is dated before today |
| `Reconcile.DeleteEligibleIff` | scripts/oppnadata_org_sync.py:381-402 | a record is marked for deletion exactly when it has no extras, no last_sync, or a last_sync dated before today |
| `Reconcile.WrittenOrgsStamped` | scripts/oppnadata_org_sync.py:182-244 | created and updated organizations carry the run's NOW_STR as last_sync |
| `Reconcile.SyncedTodayKept` | scripts/oppnadata_org_sync.py:389-396 | an organization stamped with NOW_STR of the current day is never marked for deletion |
| `Reconcile.DeleteListExact` | scripts/oppnadata_org_sync.py:380-402 | the delete loop raises exactly when a last_sync the loop reaches does not parse (it stops at a record's first last_sync dated before today), and otherwise lists exactly the marked records |
| `Reconcile.DeleteListDistinct` | scripts/oppnadata_org_sync.py:380-402 | the delete list names no organization twice |
| `Reconcile.DeleteListHeld` | scripts/oppnadata_org_sync.py:380-402 | every record of the delete list is held by the backend and marked |
| `Reconcile.VisibleEligible` | scripts/oppnadata_org_sync.py:377-380 | hiding deleted packages in the listing does not change a record's verdict |
| `Reconcile.ListedVerdicts` | scripts/oppnadata_org_sync.py:377-402 | over the listing of every stored organization, the loop raises exactly when a last_sync the loop reaches does not parse; otherwise it deletes exactly the marked organizations |
| `Reconcile.ValidOrgsSound` | scripts/oppnadata_org_sync.py:348-353 | every record the loop keeps is the validation of some feed entry |
| `Reconcile.ValidOrgsComplete` | scripts/oppnadata_org_sync.py:348-353 | every feed entry that validates is kept |
| `Reconcile.ClassifyPartition` | scripts/oppnadata_org_sync.py:347-368 | the create and update lists together are a permutation of the valid records; create holds only unknown slugs and update only known ones |
| `Reconcile.LookupsQuiet` | scripts/oppnadata_org_sync.py:356-357 | the classification lookups touch no organization |
| `Reconcile.AcceptedNames` | scripts/oppnadata_org_sync.py:190-194 | the organizations the create loop adds are the slugs of the create list that are not refused |
| `OrgSync.DeleteCandidates` | scripts/oppnadata_org_sync.py:380-402 | the delete loop computes the delete list, or stops (None) at an unparsable last_sync it reaches |
| `OrgSync.OppnaDataOrgSync.ProcessUsers` | scripts/oppnadata_org_sync.py:149-173 | the calls are those of the users step, and the members and users afterwards are those it describes |
| `OrgSync.OppnaDataOrgSync.SetUpSource` | scripts/oppnadata_org_sync.py:200-236 | a found harvest source is patched; otherwise a weekly dcat_rdf source is created with its first job |
| `OrgSync.OppnaDataOrgSync.CreateOrganization` | scripts/oppnadata_org_sync.py:176-238 | a taken or refused name issues only organization_create; otherwise the organization, its source and its admin are created as described |
| `OrgSync.OppnaDataOrgSync.FinishCreate` | scripts/oppnadata_org_sync.py:200-238 | after organization_create: the source step, then the users step on the organization whose only member is the calling user |
| `OrgSync.OppnaDataOrgSync.UpdateOrganization` | scripts/oppnadata_org_sync.py:240-282 | the calls are those of the update, and the organization afterwards has the new extras, the title only after a change, and the users step's members |
| `OrgSync.OppnaDataOrgSync.PatchShown` | scripts/oppnadata_org_sync.py:255-282 | what follows organization_show: change detection, the users step, then organization_patch |
| `OrgSync.OppnaDataOrgSync.FinishUpdate` | scripts/oppnadata_org_sync.py:281-282 | the users step, then organization_patch with the computed title and extras |
| `OrgSync.OppnaDataOrgSync.DetectChange` | scripts/oppnadata_org_sync.py:255-276 | each differing stored hash adds a url extra and a harvest-source patch; the title is sent after at least one |
| `OrgSync.OppnaDataOrgSync.DeleteOrganization` | scripts/oppnadata_org_sync.py:284-328 | a soft delete issues only organization_delete; a hard delete removes the source and the packages as described, then the organization |
| `OrgSync.OppnaDataOrgSync.HardDelete` | scripts/oppnadata_org_sync.py:289-328 | the calls of a hard delete and the sources, packages and organizations afterwards |
| `OrgSync.OppnaDataOrgSync.RemoveSource` | scripts/oppnadata_org_sync.py:302-316 | the source found by url is cleared and deleted, and the package named after the organization is deleted |
| `OrgSync.OppnaDataOrgSync.RemovePackages` | scripts/oppnadata_org_sync.py:318-325 | each package organization_show lists is deleted, and afterwards it lists none |
| `OrgSync.OppnaDataOrgSync.RemoveListedPackages` | scripts/oppnadata_org_sync.py:318-325 | packages are removed only when the record's package count is positive |
| `OrgSync.OppnaDataOrgSync.Sync` | scripts/oppnadata_org_sync.py:330-404 | see the paragraph after this table |
| `OrgSync.OppnaDataOrgSync.CreateAndUpdate` | scripts/oppnadata_org_sync.py:347-374 | creates the create list and patches the update list, leaving every written organization stamped |
| `OrgSync.OppnaDataOrgSync.Prune` | scripts/oppnadata_org_sync.py:377-404 | deletes exactly the marked organizations and keeps the rest, or deletes nothing when a last_sync the loop reaches does not parse; organizations stamped today survive |
| `OrgSync.OppnaDataOrgSync.Classify` | scripts/oppnadata_org_sync.py:347-368 | the create and update lists are those of the classification, with one organization_show per valid record and no state change |
| `OrgSync.OppnaDataOrgSync.ClassifyOne` | scripts/oppnadata_org_sync.py:349-368 | one feed entry is validated, looked up and filed |
| `OrgSync.OppnaDataOrgSync.CreateAll` | scripts/oppnadata_org_sync.py:370-371 | one creation event per record; exactly the non-refused slugs are added, each stamped |
| `OrgSync.OppnaDataOrgSync.CreateOne` | scripts/oppnadata_org_sync.py:371 | one creation event; the slug is added and stamped unless refused |
| `OrgSync.OppnaDataOrgSync.UpdateAll` | scripts/oppnadata_org_sync.py:373-374 | one patch event per record; no organization is added or removed, and each updated one is stamped |
| `OrgSync.OppnaDataOrgSync.UpdateOne` | scripts/oppnadata_org_sync.py:374 | one patch event, and the updated organization is stamped |
| `OrgSync.OppnaDataOrgSync.DeleteAll` | scripts/oppnadata_org_sync.py:404 | one deletion event per record, and exactly the listed names are removed |
| `OrgSync.OppnaDataOrgSync.DeleteOne` | scripts/oppnadata_org_sync.py:404 | one deletion event, and that organization is removed |
| `OrgSync.StoredDcatUrl` | scripts/oppnadata_org_sync.py:292-297 | the extras loop finds the last last_sync_dcat_url value |
| `OrgSync.KeptCovers` | scripts/oppnadata_org_sync.py:370-374 | every updated slug and every accepted created slug is among those stamped |
| `OrgSync.SurvivorsKept` | scripts/oppnadata_org_sync.py:380-404 | after the delete loop every remaining organization is unmarked, and every deleted one is gone and was marked |
| `OrgSync.StampedKept` | scripts/oppnadata_org_sync.py:383-396 | organizations stamped with today's NOW_STR survive the delete loop |
| `DcatHarvester.AfterDownload` | ckanext/sweden/dcat/plugin.py:30-86 | see the paragraph after this table |
| `TemplateHelpers.TranslateItems` | ckanext/sweden/dcat/template_helpers.py:21-22 | a list translates exactly when every item is a label of the table, item by item in order |
| `TemplateHelpers.GetLocalizedValue` | ckanext/sweden/dcat/template_helpers.py:11-28 | a plain value that is no label comes back unchanged; a label gives its text in the locale, or the value itself when the locale is missing; a list literal gives a value exactly when every item is a label and the comma-join of the item translations is ASCII, and that value is the join in order (otherwise the script raises) |
| `TemplateHelpers.IntendedLocalizedValue` | ckanext/sweden/dcat/template_helpers.py:20-22 | the corrected helper: a list literal gives the comma-join of its item translations exactly when every item is a label; plain values as written |
| `TemplateHelpers.AsWrittenMatchesIntended` | ckanext/sweden/dcat/template_helpers.py:20-22 | the helper as written and as intended agree except on a list whose joined translation is not ASCII, where the former raises, and always agree on an ASCII result |
| `TemplateHelpers.NonAsciiListRaises` | ckanext/sweden/dcat/template_helpers.py:20-28 | with ENVI translated to "Miljö" in Swedish, the list `['ENVI']` raises as written, while the label alone and the intended list give "Miljö" |
| `TemplateHelpers.SingletonListAsLabel` | ckanext/sweden/dcat/template_helpers.py:20-28 | as intended, a one-label list translates to the same text as the label on its own (as written only when that text is ASCII) |
| `TemplateHelpers.SplitJoin` | ckanext/sweden/dcat/template_helpers.py:21-22 | splitting the comma-join of comma-free items gives the items back |
| `TemplateHelpers.LocalizedListSplits` | ckanext/sweden/dcat/template_helpers.py:20-22 | when no label or translation contains a comma, the list translated as intended splits back into one translation per item, in order |

**`OrgSync.OppnaDataOrgSync.Sync`.**
- `Sync` runs the corrected feed gate `Fetch.FeedGate` of the Findings row. With it, the run exits with status 1, touching nothing, exactly when the feed cannot be fetched or parsed. The script as written raises AttributeError instead when every fetch attempt fails.
- Otherwise it creates the new records and patches the known ones.
- It then deletes the marked organizations, or crashes (deleting nothing) when a last_sync the delete loop reaches does not parse.
- The organization events are exactly those creations, patches and deletions, in that order.
- When it completes, every remaining organization is unmarked and every deleted one was marked.
- Each updated organization, and each accepted new one, survives when the day of the run is the day it stamps.

**`DcatHarvester.AfterDownload`.**
- With validation off, the content passes with no errors and no request is made.
- Otherwise exactly one POST of the content is made to the configured service.
- A request failure or a non-200 status gives a single error.
- An answer without rdfError, errors or warnings gives the content with no errors.
- Otherwise the errors are:
  - the rdfError alone when there is one;
  - else one "Mandatory class … missing" per missing class, then one entry per resource, in order.
- The content is then dropped exactly when stop_on_validation_errors is set.

## Left out

- The network, HTTP and the CKAN API:
  - The feed request is a parameter `net`, the attempt number mapped to raising or returning a response.
  - json.loads is a parameter `parse`.
  - CKAN is the in-memory `Backend.Ckan`, with one organization id per slug: the model uses the slug where the script passes `org['id']`.
- Text decoding:
  - The model works on decoded text.
  - The UTF-8 decode, the chardet guess, its confidence threshold and the UnicodeDecodeError it raises are not modelled.
- `Normalize.CheckUnicode`: the text is taken as already decoded, so the re-encoding to UTF-8 and the decoding failure are not represented.
- slugify.slugify and sha1(json.dumps(record)) are opaque functions fixed when the class is built (`slugify`, `hash`). The model does not show that equal records hash equally beyond their being functions.
- The clock:
  - `NOW_STR()` is read once per run, as the parameter `now`.
  - `NOW().date()` is the parameter `today`.
  - The property that today's organizations survive holds when `today == now.date`. The script reads the clock separately each time, so a run crossing midnight is outside that property.
- Logging, the log file and its name, and the closing summary line are not modelled. `sys.exit(1)` is the outcome `Exited(1)`.
- The `__enter__`/`__exit__` context-manager methods and the environment variables read in `__init__` are not modelled. The default email, slugify and hash are constructor arguments.
- `r.json()` on a non-JSON answer of the validation service (it raises) is not modelled: the answer is a decoded `Report`.
- `p.toolkit._` (message translation) is the identity.
- `json.dumps(resource)` is represented by the resource's text.
- Exceptions other than the `ValidationError` of `organization_create`, the `NotFound` of the two lookups, and the `ValueError` of `parse_datetime` are not modelled. Examples: a backend call that fails, a `user_show` on an unknown user, `organization_patch` raising.
- The user behind each member name is an index into the backend's email list. `user_invite` creates a new user every time; an existing user with that email is not reused.
- The calling user (`Ckan.caller`) is fixed when the backend is built; how CKAN finds it from the API key is not modelled.
- `package_count` is the length of the package list of the organization as organization_list gives it, so packages deleted before that listing are not counted. The count is taken once, at the listing, and not recomputed before each delete.
- `Backend.Ckan.OrganizationDeleteAction` removes the organization from the store. CKAN only marks it deleted, so the name stays taken and organization_show still finds it. No later call of the same run reads a deleted organization, so the single-run properties are unaffected, but a second `Sync` on the same backend would re-create the slug where CKAN refuses it.
- `harvest_source_clear` is recorded in the trace only. The harvested datasets it removes are not part of the model.
- `harvest_source_patch` on a source that does not exist is recorded and changes nothing. CKAN would raise `NotFound`.
- For `get_localized_value`:
  - the translations file `dcat_ap_choices.json` is the parameter `t`;
  - `eval` on a list literal is the parameter `evalList`;
  - a translation entry that is not a mapping (where `.get` on it would fail) cannot occur;
  - labels are compared as decoded text, so the difference between a byte-string list item and a unicode key of the table is not represented.
- `get_localized_value`'s default `locale='en'` (`TemplateHelpers.DefaultLocale`) is not a separate entry point: the model always takes the locale as an argument.
- The rest of the extension is not part of this model: the other plugins, templates, harvester classes and schema changes.

## Findings

| source | as written | input that shows it | evidently intended | confidence | as-written member | corrected member |
|---|---|---|---|---|---|---|
| scripts/oppnadata_org_sync.py:333-335 | when `get` gives up and returns None, the error message formats `r.status_code`, which raises AttributeError on None before `sys.exit(1)` | a feed URL whose every one of the 7 requests raises | log the failure and exit with status 1, as for a non-200 response | high (not executed) | `Fetch.FeedGateAsWritten`, `Fetch.GateCrashesWhenFetchGivesUp` | `Fetch.FeedGate` |
| ckanext/sweden/dcat/template_helpers.py:21 | under Python 2, json.load gives unicode translations, and `'{}'.format(...)` on a byte-string template encodes the joined unicode list as ASCII, raising UnicodeEncodeError on any other character | translations {"ENVI": {"sv": "Miljö"}}, string `"['ENVI']"`, locale `sv` | the comma-join of the translations, as a single label gives its translation | medium (not executed) | `TemplateHelpers.GetLocalizedValue`, `TemplateHelpers.NonAsciiListRaises` | `TemplateHelpers.IntendedLocalizedValue` |
