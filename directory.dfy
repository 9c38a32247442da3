/**
 * The permission branch of the directory and the operations that change it: user_permission_update,
 * user_permission_reset, permission_create, permission_url, permission_delete,
 * permission_sync_to_user and _update_ldap_group_permission.
 */
module Permissions {
  import opened Wrappers
  import opened Errors
  import opened Seqs
  import opened Text
  import opened Names
  import opened Entries
  import opened Catalog
  import opened Writes
  import opened Resolution
  import opened Sync
  import opened Access

  /** A write that reached the directory, by the name of the entry it concerned. */
  datatype Write = Added(cn: string) | Updated(cn: string) | Removed(cn: string)

  /** An entry the synchronization gets through: its groups are known, and a stale entry can be written. */
  predicate EntrySyncs(groups: map<string, seq<string>>, unwritable: set<string>, n: string, e: Entry) {
    Members(e.groupPermission, groups).Ok? && (Stale(e, groups) ==> n !in unwritable)
  }

  predicate SyncSucceeds(groups: map<string, seq<string>>, unwritable: set<string>, p: map<string, Entry>) {
    forall n :: n in p ==> EntrySyncs(groups, unwritable, n, p[n])
  }

  /** The error the synchronization raises on one entry: the first unknown group, or the refused write. */
  predicate SyncFailure(groups: map<string, seq<string>>, unwritable: set<string>, n: string, e: Entry, err: Error) {
    || (Members(e.groupPermission, groups).Err? && err == Members(e.groupPermission, groups).error)
    || (Stale(e, groups) && n in unwritable && err == PermissionUpdateFailed(n))
  }

  /** The writes a synchronization made: one update per stale, writable entry, none twice. */
  predicate SyncWrites(groups: map<string, seq<string>>, unwritable: set<string>, p0: map<string, Entry>, w: seq<Write>) {
    && NoDups(w)
    && forall x :: x in w ==> x.Updated? && x.cn in p0 && Stale(p0[x.cn], groups) && x.cn !in unwritable
  }

  /**
   * permission_sync_to_user from store p0 and log l0 to store p1 and log l1 with outcome r: the
   * entries visited in some order; each stale one rewritten with the users its groups grant; the
   * run passes exactly when every entry gets through, and then every stale entry was rewritten.
   */
  predicate Synced(groups: map<string, seq<string>>, unwritable: set<string>,
                   p0: map<string, Entry>, l0: seq<Write>, p1: map<string, Entry>, l1: seq<Write>,
                   r: Outcome<Error>)
  {
    && p1.Keys == p0.Keys
    && |l0| <= |l1| && l1[..|l0|] == l0
    && SyncWrites(groups, unwritable, p0, l1[|l0|..])
    && (forall n :: n in p0 ==>
          p1[n] == if Updated(n) in l1[|l0|..] then SyncedEntry(p0[n], groups) else p0[n])
    && (r.Pass? <==> SyncSucceeds(groups, unwritable, p0))
    && (r.Pass? ==> forall n :: n in p0 && Stale(p0[n], groups) ==> Updated(n) in l1[|l0|..])
    && (r.Fail? ==> exists n :: n in p0 && SyncFailure(groups, unwritable, n, p0[n], r.error))
  }

  /** A synchronization that passes leaves the synchronized store, in which no entry is stale. */
  lemma SyncedPass(groups: map<string, seq<string>>, unwritable: set<string>,
                   p0: map<string, Entry>, l0: seq<Write>, p1: map<string, Entry>, l1: seq<Write>)
    requires Synced(groups, unwritable, p0, l0, p1, l1, Pass)
    ensures p1 == SyncedStore(p0, groups)
    ensures forall n :: n in p1 ==> !Stale(p1[n], groups)
  {
    forall n | n in p0
      ensures p1[n] == SyncedEntry(p0[n], groups)
    {
      if Updated(n) !in l1[|l0|..] {
        assert !Stale(p0[n], groups);
      }
    }
    SyncIdempotent(p0, groups);
  }

  /** When no entry is stale, the synchronization performs no write and changes nothing. */
  lemma NothingStaleNoWrites(groups: map<string, seq<string>>, unwritable: set<string>,
                             p0: map<string, Entry>, l0: seq<Write>, p1: map<string, Entry>, l1: seq<Write>,
                             r: Outcome<Error>)
    requires Synced(groups, unwritable, p0, l0, p1, l1, r)
    requires forall n :: n in p0 ==> !Stale(p0[n], groups)
    ensures l1 == l0 && p1 == p0
  {
    HeadIn(l1[|l0|..]);
    assert l1 == l1[..|l0|] + l1[|l0|..];
    assert forall n :: n in p0 ==> p1[n] == p0[n];
  }

  /** A synchronization right after one that passed writes nothing. */
  lemma ResyncWritesNothing(groups: map<string, seq<string>>, unwritable: set<string>,
                            p0: map<string, Entry>, l0: seq<Write>, p1: map<string, Entry>, l1: seq<Write>,
                            p2: map<string, Entry>, l2: seq<Write>, r: Outcome<Error>)
    requires Synced(groups, unwritable, p0, l0, p1, l1, Pass)
    requires Synced(groups, unwritable, p1, l1, p2, l2, r)
    ensures l2 == l1 && p2 == p1
  {
    SyncedPass(groups, unwritable, p0, l0, p1, l1);
    NothingStaleNoWrites(groups, unwritable, p1, l1, p2, l2, r);
  }

  /**
   * The state of permission_sync_to_user's loop with the names in todo still to visit: the writes w
   * made so far, the store p, and every visited entry got through and was rewritten when stale.
   */
  predicate SyncProgress(groups: map<string, seq<string>>, unwritable: set<string>,
                         p0: map<string, Entry>, w: seq<Write>, p: map<string, Entry>, todo: set<string>)
  {
    && todo <= p0.Keys && p.Keys == p0.Keys
    && SyncWrites(groups, unwritable, p0, w)
    && (forall x :: x in w ==> x.cn !in todo)
    && (forall n :: n in p0 ==> p[n] == if Updated(n) in w then SyncedEntry(p0[n], groups) else p0[n])
    && (forall n :: n in p0 && n !in todo ==>
          EntrySyncs(groups, unwritable, n, p0[n]) && (Stale(p0[n], groups) ==> Updated(n) in w))
  }

  /** A turn that gets through keeps the loop state, with one name fewer to visit. */
  lemma SyncStep(groups: map<string, seq<string>>, unwritable: set<string>,
                 p0: map<string, Entry>, w: seq<Write>, p: map<string, Entry>, todo: set<string>,
                 n: string, p1: map<string, Entry>, w1: seq<Write>)
    requires SyncProgress(groups, unwritable, p0, w, p, todo)
    requires n in todo && EntrySyncs(groups, unwritable, n, p[n])
    requires if Stale(p[n], groups)
             then p1 == p[n := SyncedEntry(p[n], groups)] && w1 == w + [Updated(n)]
             else p1 == p && w1 == w
    ensures SyncProgress(groups, unwritable, p0, w1, p1, todo - {n})
  {
    assert Updated(n) !in w;
    assert p[n] == p0[n];
    if Stale(p[n], groups) {
      assert forall x :: x in w1 <==> x in w || x == Updated(n);
    }
  }

  /** A turn that fails ends the run with its error and the writes made before it. */
  lemma SyncAbort(groups: map<string, seq<string>>, unwritable: set<string>,
                  p0: map<string, Entry>, l0: seq<Write>, w: seq<Write>, p: map<string, Entry>,
                  todo: set<string>, n: string, err: Error)
    requires SyncProgress(groups, unwritable, p0, w, p, todo)
    requires n in todo && SyncFailure(groups, unwritable, n, p[n], err)
    ensures Synced(groups, unwritable, p0, l0, p, l0 + w, Fail(err))
  {
    assert Updated(n) !in w;
    assert (l0 + w)[|l0|..] == w && (l0 + w)[..|l0|] == l0;
    assert !EntrySyncs(groups, unwritable, n, p0[n]);
  }

  /** A run that visited every entry passes, having rewritten exactly the stale ones. */
  lemma SyncEnd(groups: map<string, seq<string>>, unwritable: set<string>,
                p0: map<string, Entry>, l0: seq<Write>, w: seq<Write>, p: map<string, Entry>)
    requires SyncProgress(groups, unwritable, p0, w, p, {})
    ensures Synced(groups, unwritable, p0, l0, p, l0 + w, Pass)
  {
    assert (l0 + w)[|l0|..] == w && (l0 + w)[..|l0|] == l0;
  }

  /** The outcome of a write step, read off its result: the final listing's missing setting is not one. */
  function StepOutcome<T>(r: Result<T, Error>): Outcome<Error> {
    if r.Err? && !r.error.AppSettingMissing? then Fail(r.error) else Pass
  }

  /**
   * One update of entry `name` to `written`, then the synchronization if asked, from store p0 and
   * log l0 to p1 and l1: s is Pass when both went through, otherwise the error raised.
   */
  predicate WrittenThenSynced(groups: map<string, seq<string>>, unwritable: set<string>,
                              name: string, written: Entry, syncPerm: bool,
                              p0: map<string, Entry>, l0: seq<Write>, p1: map<string, Entry>, l1: seq<Write>,
                              s: Outcome<Error>)
  {
    if name in unwritable then s == Fail(PermissionUpdateFailed(name)) && p1 == p0 && l1 == l0
    else if syncPerm then Synced(groups, unwritable, p0[name := written], l0 + [Updated(name)], p1, l1, s)
    else s == Pass && p1 == p0[name := written] && l1 == l0 + [Updated(name)]
  }

  /**
   * Whatever the synchronization did after it, a written entry keeps every attribute written
   * except its users; a synchronization that passed gave it the users of its allowed groups.
   */
  lemma WrittenEntryKept(groups: map<string, seq<string>>, unwritable: set<string>,
                         name: string, written: Entry, syncPerm: bool,
                         p0: map<string, Entry>, l0: seq<Write>, p1: map<string, Entry>, l1: seq<Write>,
                         s: Outcome<Error>)
    requires WrittenThenSynced(groups, unwritable, name, written, syncPerm, p0, l0, p1, l1, s)
    requires name !in unwritable
    ensures name in p1
    ensures p1[name] == written.(inheritPermission := p1[name].inheritPermission, memberUid := p1[name].memberUid)
    ensures syncPerm && s.Pass? ==>
      forall u :: u in p1[name].inheritPermission <==>
        exists g :: g in written.groupPermission && g in groups && u in groups[g]
  {
    if syncPerm && s.Pass? {
      SyncedPass(groups, unwritable, p0[name := written], l0 + [Updated(name)], p1, l1);
      SyncedEntryGranted(written, groups);
    }
  }

  /**
   * What user_permission_reset writes: set() over the text "all_users" gives its characters, so
   * the allowed groups become one-character names and all_users itself is not among them.
   */
  lemma ResetWritesCharacters(e: Entry)
    ensures var w := GroupsUpdate(e, Some(Characters(AllUsers)), None, None, None).groupPermission;
      && AllUsers !in w
      && (forall g :: g in w ==> |g| == 1 && g[0] in AllUsers)
      && "a" in w && "_" in w
  {
    var cs := Characters(AllUsers);
    assert cs[0] == "a" && cs[3] == "_";
    forall g | g in cs
      ensures |g| == 1 && g[0] in AllUsers
    {
      var i :| 0 <= i < |cs| && cs[i] == g;
    }
  }

  class Directory {
    /** The permission entries, by cn. */
    var perms: map<string, Entry>
    /** Every write that reached the directory, oldest first. */
    var writeLog: seq<Write>
    /** Every app hook fired, oldest first. */
    var hooks: seq<Hook>
    /** The groups and their members, as user_group_list reports them. */
    const groups: map<string, seq<string>>
    /** Each installed app's domain followed by its path, from its settings. */
    const appPrefix: map<string, string>
    /** The entries on which the directory refuses every write. */
    const unwritable: set<string>

    constructor (perms: map<string, Entry>, groups: map<string, seq<string>>,
                 appPrefix: map<string, string>, unwritable: set<string>)
      ensures this.perms == perms && writeLog == [] && hooks == []
      ensures this.groups == groups && this.appPrefix == appPrefix && this.unwritable == unwritable
    {
      this.perms := perms;
      writeLog := [];
      hooks := [];
      this.groups := groups;
      this.appPrefix := appPrefix;
      this.unwritable := unwritable;
    }

    /** ldap.add of a new entry. */
    method LdapAdd(name: string, e: Entry) returns (ok: bool)
      requires name !in perms
      modifies this
      ensures ok == (name !in unwritable)
      ensures perms == if ok then old(perms)[name := e] else old(perms)
      ensures writeLog == if ok then old(writeLog) + [Added(name)] else old(writeLog)
      ensures hooks == old(hooks)
    {
      ok := name !in unwritable;
      if ok {
        perms := perms[name := e];
        writeLog := writeLog + [Added(name)];
      }
    }

    /** ldap.update of an existing entry. */
    method LdapUpdate(name: string, e: Entry) returns (ok: bool)
      requires name in perms
      modifies this
      ensures ok == (name !in unwritable)
      ensures perms == if ok then old(perms)[name := e] else old(perms)
      ensures writeLog == if ok then old(writeLog) + [Updated(name)] else old(writeLog)
      ensures hooks == old(hooks)
    {
      ok := name !in unwritable;
      if ok {
        perms := perms[name := e];
        writeLog := writeLog + [Updated(name)];
      }
    }

    /** ldap.remove of an existing entry. */
    method LdapRemove(name: string) returns (ok: bool)
      requires name in perms
      modifies this
      ensures ok == (name !in unwritable)
      ensures perms == if ok then old(perms) - {name} else old(perms)
      ensures writeLog == if ok then old(writeLog) + [Removed(name)] else old(writeLog)
      ensures hooks == old(hooks)
    {
      ok := name !in unwritable;
      if ok {
        perms := perms - {name};
        writeLog := writeLog + [Removed(name)];
      }
    }

    /**
     * One turn of permission_sync_to_user's loop: the users the entry's allowed groups grant; the
     * entry is rewritten with them when its stored users differ as a set.
     */
    method SyncEntry(n: string) returns (r: Outcome<Error>)
      requires n in perms
      modifies this
      ensures hooks == old(hooks)
      ensures r.Pass? <==> EntrySyncs(groups, unwritable, n, old(perms)[n])
      ensures r.Fail? ==> SyncFailure(groups, unwritable, n, old(perms)[n], r.error)
      ensures if r.Pass? && Stale(old(perms)[n], groups)
              then perms == old(perms)[n := SyncedEntry(old(perms)[n], groups)]
                   && writeLog == old(writeLog) + [Updated(n)]
              else perms == old(perms) && writeLog == old(writeLog)
    {
      var e := perms[n];
      var granted := Members(e.groupPermission, groups);
      if granted.Err? {
        return Fail(granted.error);
      }
      if Elems(e.inheritPermission) != Elems(granted.value) {
        var users := Dedup(granted.value);
        var ok := LdapUpdate(n, e.(inheritPermission := users, memberUid := users));
        if !ok {
          return Fail(PermissionUpdateFailed(n));
        }
      }
      r := Pass;
    }

    /**
     * permission_sync_to_user: every entry, in the directory's order, takes its turn; the first
     * failing turn ends the run with its error.
     */
    method PermissionSyncToUser() returns (r: Outcome<Error>)
      modifies this
      ensures Synced(groups, unwritable, old(perms), old(writeLog), perms, writeLog, r)
      ensures hooks == old(hooks)
    {
      ghost var p0, l0 := perms, writeLog;
      ghost var w: seq<Write> := [];
      var todo := perms.Keys;
      while todo != {}
        invariant SyncProgress(groups, unwritable, p0, w, perms, todo)
        invariant writeLog == l0 + w && hooks == old(hooks)
        decreases todo
      {
        var n :| n in todo;
        ghost var p := perms;
        var step := SyncEntry(n);
        if step.Fail? {
          SyncAbort(groups, unwritable, p0, l0, w, p, todo, n, step.error);
          return step;
        }
        ghost var w1 := w;
        if Stale(p[n], groups) {
          w1 := w + [Updated(n)];
          assert (l0 + w) + [Updated(n)] == l0 + w1;
        }
        SyncStep(groups, unwritable, p0, w, p, todo, n, perms, w1);
        w := w1;
        todo := todo - {n};
      }
      SyncEnd(groups, unwritable, p0, l0, w, perms);
      r := Pass;
    }

    ghost predicate Unchanged(p0: map<string, Entry>, l0: seq<Write>, h0: seq<Hook>)
      reads this
    {
      perms == p0 && writeLog == l0 && hooks == h0
    }

    /**
     * Entry `name` was updated to `written` from store p0 and log l0, with the synchronization if
     * asked, and r is the permission's full record read back afterwards, or the error raised.
     */
    ghost predicate Rewritten(name: string, written: Entry, syncPerm: bool,
                              p0: map<string, Entry>, l0: seq<Write>, r: Result<Perm, Error>)
      reads this
    {
      && WrittenThenSynced(groups, unwritable, name, written, syncPerm, p0, l0, perms, writeLog, StepOutcome(r))
      && (StepOutcome(r).Pass? ==> name in perms && r == Refreshed(perms, appPrefix, name))
    }

    /** _update_ldap_group_permission ran from store p0, log l0 and hooks h0 and returned r. */
    ghost predicate GroupUpdated(name: string, allowed: Option<seq<string>>, newLabel: Option<string>,
                                 showTile: Option<bool>, protected: Option<bool>, syncPerm: bool,
                                 p0: map<string, Entry>, l0: seq<Write>, h0: seq<Hook>, r: Result<Perm, Error>)
      reads this
      requires name in p0 && '.' in name
    {
      && Rewritten(name, GroupsUpdate(p0[name], allowed, newLabel, showTile, protected), syncPerm, p0, l0, r)
      && hooks == if r.Ok? then h0 + AccessEvents(name, View(p0[name]), r.value) else h0
    }

    /**
     * The commit step _update_ldap_group_permission and permission_url share: the entry update,
     * raising permission_update_failed when the directory refuses it, then the synchronization if asked.
     */
    method CommitUpdate(name: string, written: Entry, syncPerm: bool) returns (s: Outcome<Error>)
      requires name in perms
      modifies this
      ensures WrittenThenSynced(groups, unwritable, name, written, syncPerm, old(perms), old(writeLog), perms, writeLog, s)
      ensures s.Fail? ==> !s.error.AppSettingMissing?
      ensures s.Pass? ==> name in perms
      ensures hooks == old(hooks)
    {
      var ok := LdapUpdate(name, written);
      if !ok {
        return Fail(PermissionUpdateFailed(name));
      }
      s := Pass;
      if syncPerm {
        s := PermissionSyncToUser();
      }
    }

    /** The add_url loop of permission_url: the stored list grown by the requested urls not yet in it. */
    method GrowUrls(current: seq<Option<string>>, addUrl: seq<string>, newUrl: Option<string>,
                    normalize: Option<string> -> Option<string>)
      returns (grown: seq<Option<string>>)
      ensures grown == current + AddedUrls(current, addUrl, newUrl, normalize)
    {
      grown := current;
      var i := 0;
      while i < |addUrl|
        invariant i <= |addUrl|
        invariant grown == current + AddedUrls(current, addUrl[..i], newUrl, normalize)
      {
        assert addUrl[..i + 1][..i] == addUrl[..i];
        if Some(addUrl[i]) !in current {
          grown := grown + [normalize(newUrl)];
        }
        i := i + 1;
      }
      assert addUrl[..i] == addUrl;
    }

    /**
     * _update_ldap_group_permission: writes the allowed groups (once each), the label and the two
     * flags, unset ones taking the stored values; synchronizes if asked; reads the full record back
     * and fires the access hooks for what changed between the record before and after.
     */
    method UpdateGroupPermission(name: string, allowed: Option<seq<string>>, newLabel: Option<string>,
                                 showTile: Option<bool>, protected: Option<bool>, syncPerm: bool)
      returns (r: Result<Perm, Error>)
      requires name in perms && '.' in name
      modifies this
      ensures GroupUpdated(name, allowed, newLabel, showTile, protected, syncPerm,
                           old(perms), old(writeLog), old(hooks), r)
      ensures r.Ok? ==> NoDups(r.value.allowed)
      ensures r.Ok? ==>
        forall g :: g in r.value.allowed <==> g in allowed.GetOr(old(perms)[name].groupPermission)
      ensures r.Ok? ==> r.value.showTile == showTile.GetOr(View(old(perms)[name]).showTile)
      ensures r.Ok? ==> r.value.protected == protected.GetOr(View(old(perms)[name]).protected)
      ensures r.Ok? && syncPerm ==>
        forall u :: u in r.value.correspondingUsers <==>
          exists g :: g in r.value.allowed && g in groups && u in groups[g]
      ensures r.Ok? && !syncPerm ==> r.value.correspondingUsers == old(perms)[name].inheritPermission
    {
      ghost var p0, l0 := perms, writeLog;
      var before := View(perms[name]);
      var written := GroupsUpdate(perms[name], allowed, newLabel, showTile, protected);
      var s := CommitUpdate(name, written, syncPerm);
      if s.Fail? {
        return Err(s.error);
      }
      WrittenEntryKept(groups, unwritable, name, written, syncPerm, p0, l0, perms, writeLog, Pass);
      r := NotifyAccess(name, before);
    }

    /**
     * The end of _update_ldap_group_permission: the full record read back, and the access hooks
     * for what changed since the record `before`.
     */
    method NotifyAccess(name: string, before: Perm) returns (r: Result<Perm, Error>)
      requires name in perms && '.' in name
      modifies this
      ensures perms == old(perms) && writeLog == old(writeLog)
      ensures r == Refreshed(perms, appPrefix, name)
      ensures hooks == if r.Ok? then old(hooks) + AccessEvents(name, before, r.value) else old(hooks)
    {
      r := Refreshed(perms, appPrefix, name);
      if r.Ok? {
        hooks := hooks + AccessEvents(name, before, r.value);
      }
    }

    /**
     * user_permission_update: the guards, then the new allowed list (added groups appended, removed
     * ones filtered), then _update_ldap_group_permission with it.
     */
    method UserPermissionUpdate(permission: string, add: seq<string>, remove: seq<string>,
                                newLabel: Option<string>, showTile: Option<bool>, protected: Option<bool>,
                                force: bool, syncPerm: bool)
      returns (r: Result<Perm, Error>)
      modifies this
      ensures var name := Qualify(permission);
        var guard := UpdateGuard(name, add, remove, Lookup(old(perms), name), force);
        && (guard.Some? ==> r == Err(guard.value) && Unchanged(old(perms), old(writeLog), old(hooks)))
        && (guard.None? ==>
              var resolved := ResolveGroups(old(perms)[name].groupPermission, add, remove, groups.Keys);
              && (resolved.Err? ==> r == Err(resolved.error) && Unchanged(old(perms), old(writeLog), old(hooks)))
              && (resolved.Ok? ==>
                    GroupUpdated(name, Some(resolved.value), newLabel, showTile, protected, syncPerm,
                                 old(perms), old(writeLog), old(hooks), r)))
      ensures r.Ok? ==> Qualify(permission) in old(perms)
      ensures r.Ok? ==>
        forall g :: g in r.value.allowed <==>
          (g in old(perms)[Qualify(permission)].groupPermission || g in add) && g !in remove
    {
      var name := Qualify(permission);
      var existing := Lookup(perms, name);
      var guard := UpdateGuard(name, add, remove, existing, force);
      if guard.Some? {
        return Err(guard.value);
      }
      var resolved := ResolveAllowed(existing.value.allowed, add, remove, groups.Keys);
      if resolved.Err? {
        return Err(resolved.error);
      }
      r := UpdateGroupPermission(name, Some(resolved.value), newLabel, showTile, protected, syncPerm);
    }

    /**
     * user_permission_reset: a permission allowed to exactly all_users is left alone; any other is
     * rewritten through _update_ldap_group_permission with the text "all_users" as its allowed groups.
     */
    method UserPermissionReset(permission: string, syncPerm: bool) returns (r: Result<Option<Perm>, Error>)
      modifies this
      ensures var name := Qualify(permission);
        && (name !in old(perms) ==>
              r == Err(PermissionNotFound(name)) && Unchanged(old(perms), old(writeLog), old(hooks)))
        && (name in old(perms) && old(perms)[name].groupPermission == [AllUsers] ==>
              r == Ok(None) && Unchanged(old(perms), old(writeLog), old(hooks)))
        && (name in old(perms) && old(perms)[name].groupPermission != [AllUsers] ==>
              && (r.Err? || r.value.Some?)
              && GroupUpdated(name, Some(Characters(AllUsers)), None, None, None, syncPerm,
                              old(perms), old(writeLog), old(hooks),
                              if r.Ok? then Ok(r.value.value) else Err(r.error)))
    {
      var name := Qualify(permission);
      var existing := Lookup(perms, name);
      if existing.None? {
        return Err(PermissionNotFound(name));
      }
      if existing.value.allowed == [AllUsers] {
        return Ok(None);
      }
      var updated := UpdateGroupPermission(name, Some(Characters(AllUsers)), None, None, None, syncPerm);
      r := if updated.Ok? then Ok(Some(updated.value)) else Err(updated.error);
    }

    /**
     * permission_url: the primary url (normalized, or the stored one), the additional urls grown
     * by add_url and filtered by remove_url, clear_urls emptying both, the auth header; then the
     * synchronization if asked, and the full record read back.
     */
    method PermissionUrl(permission: string, url: Option<string>, addUrl: seq<string>, removeUrl: seq<string>,
                         authHeader: Option<bool>, clearUrls: bool, syncPerm: bool,
                         normalize: Option<string> -> Option<string>)
      returns (r: Result<Perm, Error>)
      modifies this
      ensures hooks == old(hooks)
      ensures var name := Qualify(permission);
        && (name !in old(perms) ==>
              r == Err(PermissionNotFound(name)) && Unchanged(old(perms), old(writeLog), old(hooks)))
        && (name in old(perms) ==>
              Rewritten(name, UrlUpdate(old(perms)[name], url, addUrl, removeUrl, authHeader, clearUrls, normalize),
                        syncPerm, old(perms), old(writeLog), r))
    {
      var name := Qualify(permission);
      var existing := Lookup(perms, name);
      if existing.None? {
        return Err(PermissionNotFound(name));
      }
      var e := perms[name];
      var newUrl := if url.None? then existing.value.url else normalize(url);
      var grown := GrowUrls(existing.value.additionalUrls, addUrl, newUrl, normalize);
      var kept := KeptUrls(grown, removeUrl);
      var auth := authHeader.GetOr(existing.value.authHeader);
      var finalUrl := if clearUrls then None else newUrl;
      var finalUrls := if clearUrls then [] else kept;
      var written := e.(url := if finalUrl.Some? then [finalUrl.value] else [],
                        additionalUrls := StoredUrls(finalUrls),
                        authHeader := FlagValues(auth));
      assert written == UrlUpdate(e, url, addUrl, removeUrl, authHeader, clearUrls, normalize);
      var s := CommitUpdate(name, written, syncPerm);
      if s.Fail? {
        return Err(s.error);
      }
      r := Refreshed(perms, appPrefix, name);
    }

    /** permission_create's check of the allowed groups: the first one user_group_list does not list. */
    method FirstUnknownGroup(requested: seq<string>) returns (unknown: Option<string>)
      ensures unknown == FirstUnknown(requested, groups.Keys)
    {
      var i := 0;
      while i < |requested|
        invariant i <= |requested|
        invariant forall j :: 0 <= j < i ==> requested[j] in groups
      {
        if requested[i] !in groups {
          FirstUnknownAt(requested, groups.Keys, i);
          return Some(requested[i]);
        }
        i := i + 1;
      }
      unknown := None;
    }

    /**
     * The part of permission_create after the new entry was added as NewEntry(name) (store p0, log
     * l0, hooks h0): the group update, then permission_url; r is the group update's record unless
     * permission_url raised.
     */
    ghost predicate Configured(name: string, allowed: Option<seq<string>>, url: Option<string>,
                               additionalUrls: Option<seq<string>>, authHeader: bool, newLabel: Option<string>,
                               showTile: bool, protected: bool, syncPerm: bool,
                               normalize: Option<string> -> Option<string>,
                               p0: map<string, Entry>, l0: seq<Write>, h0: seq<Hook>, r: Result<Perm, Error>)
      reads this
      requires '.' in name
    {
      var grouped := GroupsUpdate(NewEntry(name), allowed, newLabel, Some(showTile), Some(protected));
      var p1 := p0[name := grouped];
      var l1 := l0 + [Updated(name)];
      var created := Refreshed(p1, appPrefix, name);
      && (created.Err? ==> r == created && Unchanged(p1, l1, h0))
      && (created.Ok? ==>
            && hooks == h0 + AccessEvents(name, View(NewEntry(name)), created.value)
            && exists ru :: Rewritten(name, UrlUpdate(grouped, url, additionalUrls.GetOr([]), [], Some(authHeader), false, normalize),
                                      syncPerm, p1, l1, ru)
                            && r == if ru.Ok? then created else Err(ru.error))
    }

    /**
     * permission_create: refused when the name exists or an allowed group is unknown; adds the
     * new entry, then configures it.
     */
    method PermissionCreate(permission: string, allowed: Option<seq<string>>, url: Option<string>,
                            additionalUrls: Option<seq<string>>, authHeader: bool, newLabel: Option<string>,
                            showTile: bool, protected: bool, syncPerm: bool,
                            normalize: Option<string> -> Option<string>)
      returns (r: Result<Perm, Error>)
      modifies this
      ensures var name := Qualify(permission);
        var unknown := FirstUnknown(allowed.GetOr([]), groups.Keys);
        && (name in old(perms) ==>
              r == Err(PermissionAlreadyExist(name)) && Unchanged(old(perms), old(writeLog), old(hooks)))
        && (name !in old(perms) && unknown.Some? ==>
              r == Err(GroupUnknown(unknown.value)) && Unchanged(old(perms), old(writeLog), old(hooks)))
        && (name !in old(perms) && unknown.None? && name in unwritable ==>
              r == Err(PermissionCreationFailed(name)) && Unchanged(old(perms), old(writeLog), old(hooks)))
        && (name !in old(perms) && unknown.None? && name !in unwritable ==>
              Configured(name, allowed, url, additionalUrls, authHeader, newLabel, showTile, protected, syncPerm,
                         normalize, old(perms)[name := NewEntry(name)], old(writeLog) + [Added(name)], old(hooks), r))
      ensures r.Ok? ==> Qualify(permission) in perms
      ensures r.Ok? ==> forall g :: g in perms[Qualify(permission)].groupPermission <==> g in allowed.GetOr([])
      ensures r.Ok? ==> View(perms[Qualify(permission)]).authHeader == authHeader
      ensures r.Ok? ==> forall g :: g in r.value.allowed <==> g in allowed.GetOr([])
      ensures r.Ok? ==> r.value.showTile == showTile && r.value.protected == protected
      ensures r.Ok? ==> r.value.authHeader && r.value.correspondingUsers == []
    {
      var name := Qualify(permission);
      if name in perms {
        return Err(PermissionAlreadyExist(name));
      }
      var unknown := FirstUnknownGroup(allowed.GetOr([]));
      if unknown.Some? {
        return Err(GroupUnknown(unknown.value));
      }
      var ok := LdapAdd(name, NewEntry(name));
      if !ok {
        return Err(PermissionCreationFailed(name));
      }
      r := Configure(name, allowed, url, additionalUrls, authHeader, newLabel, showTile, protected, syncPerm, normalize);
    }

    /** permission_create's group update and permission_url on the entry just added. */
    method Configure(name: string, allowed: Option<seq<string>>, url: Option<string>,
                     additionalUrls: Option<seq<string>>, authHeader: bool, newLabel: Option<string>,
                     showTile: bool, protected: bool, syncPerm: bool,
                     normalize: Option<string> -> Option<string>)
      returns (r: Result<Perm, Error>)
      requires '.' in name && name in perms && perms[name] == NewEntry(name) && name !in unwritable
      modifies this
      ensures Configured(name, allowed, url, additionalUrls, authHeader, newLabel, showTile, protected, syncPerm,
                         normalize, old(perms), old(writeLog), old(hooks), r)
      ensures r.Ok? ==> name in perms
      ensures r.Ok? ==> forall g :: g in perms[name].groupPermission <==> g in allowed.GetOr([])
      ensures r.Ok? ==> View(perms[name]).authHeader == authHeader
      ensures r.Ok? ==> forall g :: g in r.value.allowed <==> g in allowed.GetOr([])
      ensures r.Ok? ==> r.value.showTile == showTile && r.value.protected == protected
      ensures r.Ok? ==> r.value.authHeader && r.value.correspondingUsers == []
    {
      ghost var grouped := GroupsUpdate(NewEntry(name), allowed, newLabel, Some(showTile), Some(protected));
      ghost var p1 := old(perms)[name := grouped];
      ghost var l1 := old(writeLog) + [Updated(name)];
      r := UpdateGroupPermission(name, allowed, newLabel, Some(showTile), Some(protected), false);
      assert perms == p1 && writeLog == l1;
      if r.Err? {
        return;
      }
      var urls := PermissionUrl(name, url, additionalUrls.GetOr([]), [], Some(authHeader), false, syncPerm, normalize);
      ghost var urlEntry := UrlUpdate(grouped, url, additionalUrls.GetOr([]), [], Some(authHeader), false, normalize);
      assert Rewritten(name, urlEntry, syncPerm, p1, l1, urls);
      if urls.Err? {
        r := Err(urls.error);
      } else {
        WrittenEntryKept(groups, unwritable, name, urlEntry, syncPerm, p1, l1, perms, writeLog, Pass);
      }
    }

    /**
     * permission_delete: a main permission is only removed with force; the permission must appear
     * in the full listing; the entry is removed, then the synchronization runs if asked.
     */
    method PermissionDelete(permission: string, force: bool, syncPerm: bool) returns (r: Outcome<Error>)
      modifies this
      ensures hooks == old(hooks)
      ensures var name := Qualify(permission);
        var listing := PermissionDetails(old(perms), appPrefix, false, true);
        && (EndsWith(name, ".main") && !force ==>
              r == Fail(PermissionCannotRemoveMain) && Unchanged(old(perms), old(writeLog), old(hooks)))
        && (!(EndsWith(name, ".main") && !force) ==>
              && (listing.Err? ==>
                    r == Fail(AppSettingMissing) && Unchanged(old(perms), old(writeLog), old(hooks)))
              && (listing.Ok? && name !in old(perms) ==>
                    r == Fail(PermissionNotFound(name)) && Unchanged(old(perms), old(writeLog), old(hooks)))
              && (listing.Ok? && name in old(perms) && name in unwritable ==>
                    r == Fail(PermissionDeletionFailed(name)) && Unchanged(old(perms), old(writeLog), old(hooks)))
              && (listing.Ok? && name in old(perms) && name !in unwritable ==>
                    var p1, l1 := old(perms) - {name}, old(writeLog) + [Removed(name)];
                    if syncPerm then Synced(groups, unwritable, p1, l1, perms, writeLog, r)
                    else r == Pass && perms == p1 && writeLog == l1))
      ensures r.Pass? ==> perms.Keys == old(perms).Keys - {Qualify(permission)}
    {
      var name := Qualify(permission);
      if EndsWith(name, ".main") && !force {
        return Fail(PermissionCannotRemoveMain);
      }
      var listing := PermissionDetails(perms, appPrefix, false, true);
      if listing.Err? {
        return Fail(listing.error);
      }
      if name !in listing.value {
        return Fail(PermissionNotFound(name));
      }
      var ok := LdapRemove(name);
      if !ok {
        return Fail(PermissionDeletionFailed(name));
      }
      r := Pass;
      if syncPerm {
        r := PermissionSyncToUser();
      }
    }
  }
}
