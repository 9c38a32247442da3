# YunoHost permission engine

A model of the permission engine of YunoHost (`src/yunohost/permission.py`). Each app
permission is an entry of the directory's permission branch, named `<app>.<sub_permission>`.
An entry lists the groups allowed to use the permission and the users those groups grant,
together with its label, its tile and protection flags, its urls and its auth header.

The engine does the following:

- lists permissions, completing relative urls against the app's domain and path;
- adds and removes allowed groups, or resets a permission to `all_users`;
- creates, re-urls and deletes permissions;
- after a change, re-synchronizes the users every permission grants with the members of its
  allowed groups;
- fires the `post_app_addaccess` and `post_app_removeaccess` app hooks for whatever access was
  gained or lost.

## Structure

| file | module | content |
|---|---|---|
| `wrappers.dfy` | `Wrappers` | `Option`, `Result`, `Outcome` |
| `errors.dfy` | `Errors` | the errors the engine raises |
| `text.dfy` | `Text` | the `str` methods the engine relies on: `split`, `rstrip`, `lstrip`, `startswith`, `endswith` |
| `seqs.dfy` | `Seqs` | `set(...)` written back as a list, list filtering |
| `names.dfy` | `Names` | app and sub-permission of a name, the `.main` default, `SYSTEM_PERMS` |
| `urls.dfy` | `Urls` | `_complete_url` |
| `entries.dfy` | `Entries` | the stored entry and the decoded record |
| `catalog.dfy` | `Catalog` | `user_permission_list` |
| `writes.dfy` | `Writes` | the attribute values each write operation stores |
| `resolution.dfy` | `Resolution` | the guards and group arithmetic of `user_permission_update` |
| `sync.dfy` | `Sync` | what `permission_sync_to_user` computes for one entry |
| `access.dfy` | `Access` | change detection and the app hooks |
| `directory.dfy` | `Permissions` | the `Directory` class, whose fields are the stored entries, a log of the writes that reached the directory, and the hooks fired; its methods are the operations that change them |

### Modelling choices

**The directory's read-only inputs.** These are constants of `Directory`:

- `groups` stands for `user_group_list`.
- `appPrefix` maps each app to its domain followed by its path, read from the app settings.
- `unwritable` is the set of entries on which the directory refuses a write. A refused write is
  how the model represents an `ldap.add`, `ldap.update` or `ldap.remove` that raises.

**Python `set()`.** When the result of `set()` is written back, it is modelled as a list with
each element once, in order of first occurrence. The order in which
`permission_sync_to_user` visits permissions is left open: the loop picks any name not yet
visited.

**Behaviour kept as written.** Where the code's behaviour differs from what its comments and
docstrings describe, the model follows the code:

- `SYSTEM_PERMS` spells the third system app `stfp`, so the `sftp` permission is not a system
  permission (`Names.SftpIsNotSystem`).
- `_complete_url` calls `lstrip('re:/')`, which strips a set of characters, not a prefix. A regex
  url `re:/api/...` therefore loses its slash, and `re:/rest` loses `re` as well
  (`Urls.RegexExampleAsWritten`, `Urls.RegexStripsCharacterSet`).
- In `permission_url`, `add_url` appends `normalize(url)`, where `url` is the permission's
  primary url, not the url requested (`Writes.AddUrlStoresPrimaryUrl`).
- `user_permission_update` runs its `visitors` guards before its not-found check. Touching
  `visitors` on an absent permission therefore reads a field of `None` and raises
  (`MissingPermissionRecord`).
- A flag attribute that is absent decodes as true. Only a first value of exactly `FALSE` is
  false.
- An absent `additionalUrls` reads as the one-element list `[None]`.
- A group update without a label keeps the stored label. When the stored entry has no label
  either, `str(None)` is written: the text `None`.
- `user_permission_reset` passes the string `"all_users"` as the allowed groups, so `set()` makes
  the allowed groups the one-character names `a`, `l`, `u`, `s`, `e`, `r`, `_`
  (`Permissions.ResetWritesCharacters`).
- The hooks' group differences subtract user names from group names, so a user's own group is
  reported as the user alone. Replacing one group with another reports both group names
  (`Access.SwapExampleAsWritten`).
- `permission_create` returns the record read before `permission_url` ran. That record shows auth
  header true and no users, whatever was requested.

**Identifiers.** The model keeps group and user distinguished names as the bare names they are
built from. Errors are the exception kinds the code raises. A `KeyError` on a missing app setting
is `AppSettingMissing`, and one on an unknown group during synchronization is `GroupMissing`.

**The final listing.** A write operation's final `user_permission_list` can raise after the
write has been made. The write then stands, and the operation returns that error.

## Model

| member | source | states |
|---|---|---|
| Names.Qualify | src/yunohost/permission.py:122-124 | the result always has a dot; a dotted name is kept; any other becomes `<name>.main`, whose app is the name and whose sub-permission is `main` |
| Names.QualifyIdempotent | src/yunohost/permission.py:122-124 | qualifying twice is qualifying once, and the app is unchanged |
| Names.SftpIsNotSystem | src/yunohost/permission.py:39 | `sftp` is not a system permission and `stfp` is; `mail` and `xmpp` are |
| Text.RStrip | src/yunohost/permission.py:69 | the result is a prefix without the trailing character; everything removed was that character |
| Text.LStrip | src/yunohost/permission.py:71 | the result is a suffix whose first character is outside the set; everything removed was in the set |
| Seqs.Dedup | src/yunohost/permission.py:535 | no duplicates, and the same elements as the input |
| Seqs.Without | src/yunohost/permission.py:169 | an element is kept exactly when it is not in the removal list |
| Urls.CompleteUrl | src/yunohost/permission.py:65-73 | None stays None; a `/` fragment is prefixed by the app's domain and path, with only trailing slashes dropped; a `re:/` fragment gets `re:` + prefix and loses exactly its leading run of `r`, `e`, `:`, `/`; other urls are kept; a `/` or `re:/` url fails exactly when its app has no setting, and None or any other url never fails |
| Urls.CompleteAll | src/yunohost/permission.py:94 | succeeds exactly when every url completes, and then yields each completion in place |
| Urls.LStripRun | src/yunohost/permission.py:71 | lstrip removes a run of set characters and stops at the first character outside the set |
| Urls.RootIsAppPrefix | src/yunohost/permission.py:68-69 | a url made only of slashes completes to exactly the app's domain and path |
| Urls.RelativeFragmentAppended | src/yunohost/permission.py:68-69 | `/frag` without a trailing slash is appended unchanged |
| Urls.RegexFragmentLosesSlash | src/yunohost/permission.py:70-71 | `re:/frag` completes to `re:` + prefix + `frag`, without the slash |
| Urls.RelativeExampleAsWritten | src/yunohost/permission.py:68-69 | `/admin` for an app at `example.org/myapp` completes to `example.org/myapp/admin` |
| Urls.RegexExampleAsWritten | src/yunohost/permission.py:70-71 | `re:/api/[A-Z]*$` completes without the slash between the app path and `api` |
| Urls.RegexStripsCharacterSet | src/yunohost/permission.py:71 | `re:/rest` completes with `st`: the leading `re` of the fragment is stripped too |
| Entries.DecodeFlag | src/yunohost/permission.py:88-91 | a flag reads false exactly when its first stored value is present and is `FALSE` |
| Entries.View | src/yunohost/permission.py:84-97 | the decoded record: groups and users as stored; label and url are the first stored value, and absent exactly when the attribute is; additional urls are `UrlList` of the stored ones; each flag false exactly when its first value is `FALSE`; absent additional urls read as `[None]` |
| Entries.FlagValues | src/yunohost/permission.py:541-542 | one value, and it decodes back to the flag written |
| Entries.UrlList | src/yunohost/permission.py:94-97 | an absent attribute reads as `[None]`; a present attribute reads as its stored values, in order and each as a present value |
| Entries.FlagDecoding | src/yunohost/permission.py:88-91 | a flag is false exactly when its first value is `FALSE`; absent, `TRUE` or `false` read as true |
| Catalog.Shown | src/yunohost/permission.py:80-81 | every permission is shown unless system permissions are ignored; then exactly those whose app is not in SYSTEM_PERMS |
| Catalog.ResolvedPerm | src/yunohost/permission.py:86-97 | without full_path, or for a system permission, the stored record decoded; otherwise the url and the additional urls are the completions of the stored ones, everything else is decoded as stored, and it fails exactly when a completion fails |
| Catalog.PermissionDetails | src/yunohost/permission.py:75-97 | a record for exactly the shown permissions, each the resolved one; it fails, with nothing listed, exactly when one of them fails; it never fails without full_path |
| Catalog.UserPermissionList | src/yunohost/permission.py:48-102 | the listed names are exactly the shown permissions; short gives names, full gives records, otherwise the allowed groups as stored; a full listing fails exactly when PermissionDetails fails, and its records are PermissionDetails' records; only a full listing with full_path can fail |
| Catalog.Refreshed | src/yunohost/permission.py:404 | the record read back after a write is the permission's record with completed urls (ResolvedPerm with full_path); it fails, with the missing-setting error, exactly when the full listing does |
| Catalog.Lookup | src/yunohost/permission.py:126 | None exactly for an absent permission; otherwise the record of the full listing without full_path |
| Writes.LabelValues | src/yunohost/permission.py:540 | nothing for the empty label, the label itself when set, `None` as text when unset |
| Writes.NewEntry | src/yunohost/permission.py:286-294 | no groups, users or urls; auth header true, placeholder flags false, the permission's own name as label |
| Writes.GroupsUpdate | src/yunohost/permission.py:521-545 | only groups, label and flags change; groups are written once each and are the requested ones, or the stored ones when unset; unset flags and label keep the stored values |
| Writes.AddedUrls | src/yunohost/permission.py:364-369 | every appended value is normalize of the primary url; nothing is appended exactly when every requested url is already present |
| Writes.NewPrimaryUrl | src/yunohost/permission.py:356-359 | the stored primary url when none is given, otherwise the normalized request |
| Writes.GrownUrls | src/yunohost/permission.py:361-369 | a url is in the grown list exactly when it was stored, or is the normalized primary url and some requested url was new |
| Writes.StoredUrls | src/yunohost/permission.py:386 | each present url once; None values are not stored |
| Writes.KeptUrls | src/yunohost/permission.py:371-376 | a url is kept exactly when it was there and is not to be removed |
| Writes.UrlUpdate | src/yunohost/permission.py:356-396 | only the urls and the auth header change; clear_urls empties both url attributes; otherwise the primary url is the normalized request or the stored one, and an additional url is stored exactly when not removed and either stored before or added as described; auth header defaults to the stored one |
| Writes.AddUrlStoresPrimaryUrl | src/yunohost/permission.py:364-369 | asking for additional url u on a permission with primary url p stores p and not u |
| Resolution.FirstUnknown | src/yunohost/permission.py:300-304 | None exactly when every group is known; otherwise an unknown group of the list |
| Resolution.FirstUnknownAt | src/yunohost/permission.py:152-154 | the group reported is the one at the first unknown index |
| Resolution.Appended | src/yunohost/permission.py:155-159 | no longer than the groups requested; every appended group was requested and was not allowed before |
| Resolution.AppendedMembers | src/yunohost/permission.py:155-159 | a group is appended exactly when it is requested and not already allowed |
| Resolution.ResolveGroups | src/yunohost/permission.py:150-169 | fails exactly when an added group is unknown, naming it; otherwise a group ends up allowed exactly when it was allowed or added, and is not removed |
| Resolution.ResolvedAppendsOnlyNewGroups | src/yunohost/permission.py:155-159 | the new list is the kept old groups followed by kept new groups, none of which was allowed before |
| Resolution.ResolveAllowed | src/yunohost/permission.py:147-169 | the append loop and the removal filter compute ResolveGroups |
| Resolution.WithoutNothing | src/yunohost/permission.py:161-169 | with nothing to remove the list is unchanged |
| Resolution.UpdateGuard | src/yunohost/permission.py:128-140 | the update may proceed exactly when the permission exists, visitors is not being added to a system permission, and visitors is only touched on a protected permission with force |
| Resolution.SystemPermsRefuseVisitors | src/yunohost/permission.py:129-130 | adding visitors to a system permission is always refused |
| Resolution.ProtectedNeedsForce | src/yunohost/permission.py:132-135 | on a protected permission, touching visitors is refused exactly without force |
| Resolution.AbsentPermission | src/yunohost/permission.py:128-140 | an absent permission is reported as not found only when visitors is not involved |
| Sync.Members | src/yunohost/permission.py:467 | succeeds exactly when every allowed group is known; otherwise names an unknown allowed group |
| Sync.MembersGranted | src/yunohost/permission.py:467 | a user is listed exactly when an allowed group has them as a member |
| Sync.Stale | src/yunohost/permission.py:471 | only an entry whose allowed groups are all known can be stale |
| Sync.StaleIffUsersDiffer | src/yunohost/permission.py:464-473 | an entry is stale exactly when its groups are known and some user is stored but not granted, or granted but not stored |
| Sync.SyncedEntry | src/yunohost/permission.py:464-480 | an up-to-date entry is unchanged; a stale one changes only its users, which become exactly the members of its allowed groups, each once |
| Sync.SyncedStore | src/yunohost/permission.py:461-482 | the same names, each entry after its turn |
| Sync.SyncedEntryGranted | src/yunohost/permission.py:467-480 | after its turn an entry lists exactly the members of its allowed groups |
| Sync.SyncedIsFresh | src/yunohost/permission.py:471-473 | no entry is stale after its turn |
| Sync.SyncIdempotent | src/yunohost/permission.py:461-482 | synchronizing a synchronized store changes nothing |
| Access.Diff | src/yunohost/permission.py:559-569 | users gained and lost are the set differences; groups gained or lost are the allowed differences minus the gained or lost user names |
| Access.AccessEvents | src/yunohost/permission.py:571-574 | at most two hooks, the add hook before the remove hook; an add hook fires exactly when something was gained, a remove hook exactly when something was lost; each carries the app, the sub-permission and the differences |
| Access.NoChangeNoHooks | src/yunohost/permission.py:559-574 | the same users and groups before and after fire no hook |
| Access.SwapExampleAsWritten | src/yunohost/permission.py:565-569 | replacing grpA (u1, u2) by grpB (u2, u3) reports u3 and grpB gained, u1 and grpA lost |
| Access.OwnGroupReportedAsUser | src/yunohost/permission.py:568 | a newly allowed group named like a newly granted user is reported as the user only |
| Permissions.SyncedPass | src/yunohost/permission.py:461-482 | a synchronization that passes leaves the synchronized store, with no stale entry |
| Permissions.NothingStaleNoWrites | src/yunohost/permission.py:469-473 | when no entry is stale, the synchronization writes nothing and changes nothing |
| Permissions.ResyncWritesNothing | src/yunohost/permission.py:461-482 | a synchronization right after one that passed writes nothing |
| Permissions.SyncStep | src/yunohost/permission.py:461-482 | a turn that gets through keeps the loop invariant with one name fewer |
| Permissions.SyncAbort | src/yunohost/permission.py:467-482 | a failing turn ends the run with its error and the writes already made |
| Permissions.SyncEnd | src/yunohost/permission.py:461-484 | a run that visited every entry passes, having written every stale entry |
| Permissions.WrittenEntryKept | src/yunohost/permission.py:537-550 | after a write and an optional synchronization, the entry keeps what was written except its users; after a passing synchronization its users are the members of its groups |
| Permissions.ResetWritesCharacters | src/yunohost/permission.py:220 | reset iterates the text `all_users` character by character (`Text.Characters`), so it writes one-character groups taken from `all_users`, among them `a` and `_`, and not `all_users` itself |
| Permissions.Directory.LdapAdd | src/yunohost/permission.py:309-312 | the entry is added and logged exactly when the directory accepts the write |
| Permissions.Directory.LdapUpdate | src/yunohost/permission.py:537-545 | the entry is replaced and logged exactly when the directory accepts the write |
| Permissions.Directory.LdapRemove | src/yunohost/permission.py:437-440 | the entry is removed and logged exactly when the directory accepts the write |
| Permissions.Directory.SyncEntry | src/yunohost/permission.py:462-482 | one turn: fails on an unknown group or a refused write; a stale entry is written with its granted users; nothing else changes |
| Permissions.Directory.PermissionSyncToUser | src/yunohost/permission.py:447-484 | keys kept; only stale entries written, once each; each written entry becomes its synchronized form; passes exactly when every entry gets through, and then every stale entry was written; a failure names an entry and its error |
| Permissions.Directory.CommitUpdate | src/yunohost/permission.py:537-550 | the entry update, refused with permission_update_failed, then the synchronization if asked; hooks unchanged |
| Permissions.Directory.GrowUrls | src/yunohost/permission.py:362-369 | the add_url loop computes the stored list followed by AddedUrls |
| Permissions.Directory.UpdateGroupPermission | src/yunohost/permission.py:493-576 | writes GroupsUpdate, synchronizes if asked, reads back and fires AccessEvents; the record's groups are distinct and match the requested (or stored) ones; flags default to the stored ones; users are the members of the allowed groups with sync and unchanged without |
| Permissions.Directory.NotifyAccess | src/yunohost/permission.py:552-576 | the record is read back; on success the hooks are extended by the events for the change; the store is unchanged |
| Permissions.Directory.UserPermissionUpdate | src/yunohost/permission.py:105-189 | a guard or an unknown group fails with nothing changed; otherwise the group update with the resolved list; on success a group is allowed exactly when it was allowed or added and is not removed |
| Permissions.Directory.UserPermissionReset | src/yunohost/permission.py:193-224 | not found, or already exactly all_users, changes nothing; otherwise the group update with the characters of `all_users` |
| Permissions.Directory.PermissionUrl | src/yunohost/permission.py:326-404 | not found changes nothing; otherwise the entry is rewritten with UrlUpdate, synchronized if asked and read back; no hook fires |
| Permissions.Directory.FirstUnknownGroup | src/yunohost/permission.py:300-304 | the check loop finds the first unknown allowed group |
| Permissions.Directory.PermissionCreate | src/yunohost/permission.py:236-322 | an existing name, an unknown group or a refused add fail with nothing changed; otherwise the new entry is added and configured; on success the stored groups are the requested ones and the stored auth header the requested one, while the record returned shows auth header true and no users |
| Permissions.Directory.Configure | src/yunohost/permission.py:314-319 | the group update without synchronization, then permission_url with the requested urls and auth header |
| Permissions.Directory.PermissionDelete | src/yunohost/permission.py:408-444 | in order: a main permission without force, a listing that fails, an absent permission, a refused removal each fail with nothing changed; otherwise the entry is removed and the synchronization runs if asked |

## Left out

- GID sampling in `permission_create` (`grp.getgrall`, `random.randint`), `app_ssowatconf`, the
  `nscd` cache invalidation, logging and translated messages, and the operation logger: these are
  I/O with no effect on the permission entries.
- The warning about `all_users` mixed with other groups (lines 176-178): it is only logged.
- Passing a single string instead of a list for `add`, `remove` or `allowed`: the model takes
  lists. The reset's string argument is modelled, through `Text.Characters`.
- `_check_and_normalize_permission_path` is a parameter `normalize` of the url operations. Its own
  validation errors are not part of this model.
- The crash of the directory on a write that changes nothing: the model accepts such writes.
- The order of the names joined into the hook arguments (`','.join` over a set): hooks carry sets.
- Building distinguished names and `_ldap_path_extract`: entries hold bare group names and uids.
- `user_group_list` and `app_setting` are not part of this model; their results are the
  constants `groups` and `appPrefix`.
- Which exception the directory raises on a refused write: the model only says which entries
  refuse writes (`unwritable`).
- Permissions.Directory.PermissionCreate: a refused write is a fixed property of an entry
  (`unwritable`), so an entry whose `ldap.add` was accepted never has its following group update
  or url update refused. The source can fail there with `permission_update_failed` and leave the
  entry behind with no groups and the placeholder `FALSE` flags; the model does not represent that.
- Permissions.Directory.Configure: for the same reason, the group update and the url update of a
  freshly added entry always reach the directory.
- Permissions.Directory.CommitUpdate: for the same reason, a synchronization that follows an
  accepted update is never refused on the entry just updated.
- `Writes.AddUrlStoresPrimaryUrl`: states the stored urls as a set for an identity `normalize`,
  not as a list for every normalizer.
