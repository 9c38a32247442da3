/**
 * The checks and the group arithmetic of user_permission_update, before anything is written.
 */
module Resolution {
  import opened Wrappers
  import opened Errors
  import opened Seqs
  import opened Names
  import opened Entries

  const Visitors := "visitors"
  const AllUsers := "all_users"

  /** The first group of `groups` that is not a known group, if any. */
  function FirstUnknown(groups: seq<string>, known: set<string>): (r: Option<string>)
    ensures r.None? <==> forall g :: g in groups ==> g in known
    ensures r.Some? ==> r.value in groups && r.value !in known
  {
    if groups == [] then None
    else if groups[0] !in known then Some(groups[0])
    else FirstUnknown(groups[1..], known)
  }

  /** The unknown group found first is the one at the first index where a group is unknown. */
  lemma {:induction false} FirstUnknownAt(groups: seq<string>, known: set<string>, i: nat)
    requires i < |groups| && groups[i] !in known
    requires forall j :: 0 <= j < i ==> groups[j] in known
    ensures FirstUnknown(groups, known) == Some(groups[i])
  {
    if i > 0 {
      FirstUnknownAt(groups[1..], known, i - 1);
    }
  }

  /** The groups of `add` that the append loop adds: those not currently allowed, in order. */
  function Appended(current: seq<string>, add: seq<string>): (r: seq<string>)
    ensures |r| <= |add|
    ensures forall i :: 0 <= i < |r| ==> r[i] in add && r[i] !in current
  {
    if add == [] then []
    else
      Appended(current, add[..|add| - 1]) +
      (if add[|add| - 1] in current then [] else [add[|add| - 1]])
  }

  /** A group is appended exactly when it is requested and not currently allowed. */
  lemma {:induction false} AppendedMembers(current: seq<string>, add: seq<string>)
    ensures forall g :: g in Appended(current, add) <==> g in add && g !in current
  {
    if add != [] {
      var init, last := add[..|add| - 1], add[|add| - 1];
      AppendedMembers(current, init);
      assert add == init + [last];
      assert forall g :: g in add <==> g in init || g == last;
    }
  }

  /**
   * The new allowed list of user_permission_update: every added group must exist; groups already
   * allowed are not appended again; the groups to remove are filtered out after the additions.
   */
  function ResolveGroups(current: seq<string>, add: seq<string>, remove: seq<string>, known: set<string>)
    : (r: Result<seq<string>, Error>)
    ensures r.Err? <==> exists g :: g in add && g !in known
    ensures r.Err? ==> r.error.GroupUnknown? && r.error.group in add && r.error.group !in known
    ensures r.Ok? ==> forall g :: g in r.value <==> (g in current || g in add) && g !in remove
  {
    match FirstUnknown(add, known)
    case Some(g) => Err(GroupUnknown(g))
    case None =>
      AppendedMembers(current, add);
      Ok(Without(current + Appended(current, add), remove))
  }

  /** The appended part of the resolved list holds no group that was already allowed. */
  lemma ResolvedAppendsOnlyNewGroups(current: seq<string>, add: seq<string>, remove: seq<string>, known: set<string>)
    requires ResolveGroups(current, add, remove, known).Ok?
    ensures var r := ResolveGroups(current, add, remove, known).value;
      && r == Without(current, remove) + Without(Appended(current, add), remove)
      && forall i :: |Without(current, remove)| <= i < |r| ==> r[i] !in current
  {
    WithoutConcat(current, Appended(current, add), remove);
    AppendedMembers(current, add);
    var tail := Without(Appended(current, add), remove);
    assert forall i :: 0 <= i < |tail| ==> tail[i] in tail;
  }

  /** user_permission_update's loop appending the new groups, then the filter dropping the removed ones. */
  method ResolveAllowed(current: seq<string>, add: seq<string>, remove: seq<string>, known: set<string>)
    returns (r: Result<seq<string>, Error>)
    ensures r == ResolveGroups(current, add, remove, known)
  {
    var newAllowed := current;
    var i := 0;
    while i < |add|
      invariant i <= |add|
      invariant forall j :: 0 <= j < i ==> add[j] in known
      invariant newAllowed == current + Appended(current, add[..i])
    {
      var group := add[i];
      if group !in known {
        FirstUnknownAt(add, known, i);
        return Err(GroupUnknown(group));
      }
      assert add[..i + 1][..i] == add[..i];
      if group !in current {
        newAllowed := newAllowed + [group];
      }
      i := i + 1;
    }
    assert add[..i] == add;
    if |remove| > 0 {
      newAllowed := Without(newAllowed, remove);
    } else {
      WithoutNothing(newAllowed);
    }
    r := Ok(newAllowed);
  }

  /** Filtering with an empty removal list keeps the list as it is. */
  lemma {:induction false} WithoutNothing(s: seq<string>)
    ensures Without(s, []) == s
  {
    if s != [] {
      WithoutNothing(s[1..]);
    }
  }

  /**
   * The guards of user_permission_update, in the source's order: visitors may never be added to a
   * system permission; adding or removing visitors on an absent permission reads its protected
   * flag from None and raises; on a protected permission it needs force; then the permission must exist.
   */
  function UpdateGuard(permission: string, add: seq<string>, remove: seq<string>,
                       existing: Option<Perm>, force: bool): (r: Option<Error>)
    ensures r.None? <==>
      && existing.Some?
      && !(Visitors in add && IsSystem(permission))
      && !((Visitors in add || Visitors in remove) && existing.value.protected && !force)
  {
    var touchesVisitors := Visitors in add || Visitors in remove;
    if Visitors in add && IsSystem(permission) then Some(PermissionRequireAccount(permission))
    else if touchesVisitors && existing.None? then Some(MissingPermissionRecord(permission))
    else if touchesVisitors && existing.value.protected && !force then Some(PermissionProtected(permission))
    else if existing.None? then Some(PermissionNotFound(permission))
    else None
  }

  /** Adding visitors to a system permission always fails, whatever force and the stored record say. */
  lemma SystemPermsRefuseVisitors(permission: string, add: seq<string>, remove: seq<string>,
                                  existing: Option<Perm>, force: bool)
    requires Visitors in add && IsSystem(permission)
    ensures UpdateGuard(permission, add, remove, existing, force) == Some(PermissionRequireAccount(permission))
  {
  }

  /** On a protected permission, adding or removing visitors is refused exactly when force is not given. */
  lemma ProtectedNeedsForce(permission: string, add: seq<string>, remove: seq<string>, p: Perm, force: bool)
    requires p.protected && (Visitors in add || Visitors in remove)
    requires !(Visitors in add && IsSystem(permission))
    ensures UpdateGuard(permission, add, remove, Some(p), force) ==
      if force then None else Some(PermissionProtected(permission))
  {
  }

  /**
   * An absent permission is reported as not found only when visitors is not involved: the
   * visitors guards run first and fail on the missing record.
   */
  lemma AbsentPermission(permission: string, add: seq<string>, remove: seq<string>, force: bool)
    ensures var r := UpdateGuard(permission, add, remove, None, force);
      && (Visitors !in add && Visitors !in remove ==> r == Some(PermissionNotFound(permission)))
      && (Visitors in add && IsSystem(permission) ==> r == Some(PermissionRequireAccount(permission)))
      && ((Visitors in add || Visitors in remove) && !(Visitors in add && IsSystem(permission)) ==>
            r == Some(MissingPermissionRecord(permission)))
  {
  }
}
