/**
 * The per-permission computation of permission_sync_to_user: which users the allowed groups
 * grant, whether the stored inherited users are stale, and what is written when they are.
 */
module Sync {
  import opened Wrappers
  import opened Errors
  import opened Seqs
  import opened Entries

  /**
   * [user for group in allowed for user in groups[group]["members"]]: the members of every allowed
   * group, in order; the first allowed group the directory does not know raises a KeyError.
   */
  function Members(allowed: seq<string>, groups: map<string, seq<string>>): (r: Result<seq<string>, Error>)
    ensures r.Ok? <==> forall g :: g in allowed ==> g in groups
    ensures r.Err? ==> r.error.GroupMissing? && r.error.group in allowed && r.error.group !in groups
  {
    if allowed == [] then Ok([])
    else
      var g := allowed[0];
      if g !in groups then Err(GroupMissing(g))
      else
        match Members(allowed[1..], groups)
        case Err(e) => Err(e)
        case Ok(rest) =>
          assert forall h :: h in allowed <==> h == g || h in allowed[1..];
          Ok(groups[g] + rest)
  }

  /** A user is granted exactly when one of the allowed groups has them as a member. */
  lemma {:induction false} MembersGranted(allowed: seq<string>, groups: map<string, seq<string>>)
    requires Members(allowed, groups).Ok?
    ensures forall u :: u in Members(allowed, groups).value <==>
      exists g :: g in allowed && g in groups && u in groups[g]
  {
    if allowed != [] {
      MembersGranted(allowed[1..], groups);
      assert forall h :: h in allowed <==> h == allowed[0] || h in allowed[1..];
    }
  }

  /** The stored inherited users differ, as a set, from the users the allowed groups grant. */
  predicate Stale(e: Entry, groups: map<string, seq<string>>)
    ensures Stale(e, groups) ==> Members(e.groupPermission, groups).Ok?
  {
    match Members(e.groupPermission, groups)
    case Err(_) => false
    case Ok(m) => Elems(e.inheritPermission) != Elems(m)
  }

  /**
   * The entry after its turn in the synchronization: a stale entry gets the granted users,
   * once each, as inheritPermission and memberUid; any other entry is left as it is.
   */
  function SyncedEntry(e: Entry, groups: map<string, seq<string>>): (r: Entry)
    ensures !Stale(e, groups) ==> r == e
    ensures Stale(e, groups) ==> r == e.(inheritPermission := r.inheritPermission, memberUid := r.inheritPermission)
    ensures Members(e.groupPermission, groups).Ok? ==>
      forall u :: u in r.inheritPermission <==> u in Members(e.groupPermission, groups).value
    ensures NoDups(e.inheritPermission) ==> NoDups(r.inheritPermission)
    ensures Stale(e, groups) ==> NoDups(r.inheritPermission)
  {
    match Members(e.groupPermission, groups)
    case Err(_) => e
    case Ok(m) =>
      if Elems(e.inheritPermission) == Elems(m) then
        assert forall u :: u in e.inheritPermission <==> u in Elems(e.inheritPermission);
        e
      else
        var users := Dedup(m);
        e.(inheritPermission := users, memberUid := users)
  }

  /** What a completed synchronization leaves in the store. */
  function SyncedStore(perms: map<string, Entry>, groups: map<string, seq<string>>): (r: map<string, Entry>)
    ensures r.Keys == perms.Keys
    ensures forall n :: n in perms ==> r[n] == SyncedEntry(perms[n], groups)
  {
    map n | n in perms :: SyncedEntry(perms[n], groups)
  }

  /**
   * An entry is stale exactly when its groups are all known and some user is stored but not
   * granted, or granted but not stored.
   */
  lemma StaleIffUsersDiffer(e: Entry, groups: map<string, seq<string>>)
    ensures Stale(e, groups) <==>
      && Members(e.groupPermission, groups).Ok?
      && exists u :: (u in e.inheritPermission) != (u in Members(e.groupPermission, groups).value)
  {
    match Members(e.groupPermission, groups)
    case Err(_) =>
    case Ok(m) =>
      if Stale(e, groups) {
        var u :| u in Elems(e.inheritPermission) - Elems(m) || u in Elems(m) - Elems(e.inheritPermission);
        assert (u in e.inheritPermission) != (u in m);
      } else {
        forall u ensures (u in e.inheritPermission) == (u in m) {
          assert u in Elems(e.inheritPermission) <==> u in Elems(m);
        }
      }
  }

  /** After its turn, an entry whose groups are all known lists exactly the members of its allowed groups. */
  lemma SyncedEntryGranted(e: Entry, groups: map<string, seq<string>>)
    requires Members(e.groupPermission, groups).Ok?
    ensures forall u :: u in SyncedEntry(e, groups).inheritPermission <==>
      exists g :: g in e.groupPermission && g in groups && u in groups[g]
  {
    MembersGranted(e.groupPermission, groups);
  }

  /** After its turn, no entry is stale: a second synchronization writes nothing. */
  lemma SyncedIsFresh(e: Entry, groups: map<string, seq<string>>)
    ensures !Stale(SyncedEntry(e, groups), groups)
  {
    var r := SyncedEntry(e, groups);
    assert r.groupPermission == e.groupPermission;
    match Members(e.groupPermission, groups)
    case Err(_) =>
    case Ok(m) =>
      assert forall u :: u in r.inheritPermission <==> u in m;
      assert Elems(r.inheritPermission) == Elems(m);
  }

  /** Synchronizing a synchronized store changes nothing. */
  lemma SyncIdempotent(perms: map<string, Entry>, groups: map<string, seq<string>>)
    ensures SyncedStore(SyncedStore(perms, groups), groups) == SyncedStore(perms, groups)
    ensures forall n :: n in perms ==> !Stale(SyncedStore(perms, groups)[n], groups)
  {
    forall n | n in perms
      ensures !Stale(SyncedStore(perms, groups)[n], groups)
    {
      SyncedIsFresh(perms[n], groups);
    }
  }
}
