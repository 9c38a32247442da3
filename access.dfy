/**
 * Change detection of _update_ldap_group_permission: which users and groups gained or lost
 * access, and which app hooks fire with them.
 */
module Access {
  import opened Seqs
  import opened Names
  import opened Entries

  datatype HookEvent = PostAppAddAccess | PostAppRemoveAccess

  /** One hook_callback call: the event, then app, users, sub-permission and groups as its arguments. */
  datatype Hook = Hook(event: HookEvent, app: string, users: set<string>, subPermission: string, groups: set<string>)

  datatype AccessChange = AccessChange(
    addedUsers: set<string>,
    removedUsers: set<string>,
    addedGroups: set<string>,
    removedGroups: set<string>)

  /**
   * Users gained or lost; groups gained or lost, except those named like a user already in the
   * user difference (a user's own group carries the user's name).
   */
  function Diff(before: Perm, after: Perm): (c: AccessChange)
    ensures forall u :: u in c.addedUsers <==> u in after.correspondingUsers && u !in before.correspondingUsers
    ensures forall u :: u in c.removedUsers <==> u in before.correspondingUsers && u !in after.correspondingUsers
    ensures forall g :: g in c.addedGroups <==>
      g in after.allowed && g !in before.allowed && g !in c.addedUsers
    ensures forall g :: g in c.removedGroups <==>
      g in before.allowed && g !in after.allowed && g !in c.removedUsers
  {
    var oldUsers, newUsers := Elems(before.correspondingUsers), Elems(after.correspondingUsers);
    var oldAllowed, newAllowed := Elems(before.allowed), Elems(after.allowed);
    var addedUsers := newUsers - oldUsers;
    var removedUsers := oldUsers - newUsers;
    AccessChange(addedUsers, removedUsers,
                 newAllowed - oldAllowed - addedUsers, oldAllowed - newAllowed - removedUsers)
  }

  /** The hooks fired for a change: post_app_addaccess if anything was gained, then post_app_removeaccess if anything was lost. */
  function AccessEvents(permission: string, before: Perm, after: Perm): (r: seq<Hook>)
    requires '.' in permission
    ensures var c := Diff(before, after);
      && (exists h :: h in r && h.event == PostAppAddAccess) == (c.addedUsers != {} || c.addedGroups != {})
      && (exists h :: h in r && h.event == PostAppRemoveAccess) == (c.removedUsers != {} || c.removedGroups != {})
    ensures |r| <= 2
    ensures |r| == 2 ==> r[0].event == PostAppAddAccess && r[1].event == PostAppRemoveAccess
    ensures forall h :: h in r ==> h.app == AppOf(permission) && h.subPermission == SubOf(permission)
    ensures forall h :: h in r && h.event == PostAppAddAccess ==>
      h.users == Diff(before, after).addedUsers && h.groups == Diff(before, after).addedGroups
    ensures forall h :: h in r && h.event == PostAppRemoveAccess ==>
      h.users == Diff(before, after).removedUsers && h.groups == Diff(before, after).removedGroups
  {
    var c := Diff(before, after);
    var app, sub := AppOf(permission), SubOf(permission);
    (if c.addedUsers != {} || c.addedGroups != {} then [Hook(PostAppAddAccess, app, c.addedUsers, sub, c.addedGroups)] else []) +
    (if c.removedUsers != {} || c.removedGroups != {} then [Hook(PostAppRemoveAccess, app, c.removedUsers, sub, c.removedGroups)] else [])
  }

  /** Nothing gained and nothing lost in both directions: the same users and groups fire no hook. */
  lemma NoChangeNoHooks(permission: string, before: Perm, after: Perm)
    requires '.' in permission
    requires Elems(before.correspondingUsers) == Elems(after.correspondingUsers)
    requires Elems(before.allowed) == Elems(after.allowed)
    ensures AccessEvents(permission, before, after) == []
  {
    var c := Diff(before, after);
    assert c.addedUsers == {} by {
      forall u | u in after.correspondingUsers ensures u in before.correspondingUsers {
        assert u in Elems(after.correspondingUsers);
      }
    }
    assert c.removedUsers == {} by {
      forall u | u in before.correspondingUsers ensures u in after.correspondingUsers {
        assert u in Elems(before.correspondingUsers);
      }
    }
    assert c.addedGroups == {} by {
      forall g | g in after.allowed ensures g in before.allowed {
        assert g in Elems(after.allowed);
      }
    }
    assert c.removedGroups == {} by {
      forall g | g in before.allowed ensures g in after.allowed {
        assert g in Elems(before.allowed);
      }
    }
  }

  /**
   * Replacing group grpA (users u1, u2) by grpB (users u2, u3): u3 is gained and u1 lost, and the
   * group names themselves are reported too, since they are not user names.
   */
  lemma SwapExampleAsWritten(before: Perm, after: Perm)
    requires before.allowed == ["grpA"] && before.correspondingUsers == ["u1", "u2"]
    requires after.allowed == ["grpB"] && after.correspondingUsers == ["u2", "u3"]
    ensures Diff(before, after) == AccessChange({"u3"}, {"u1"}, {"grpB"}, {"grpA"})
  {
    var c := Diff(before, after);
    assert "u1" != "u2" && "u2" != "u3" && "u1" != "u3" by {
      assert "u1"[1] != "u2"[1] && "u2"[1] != "u3"[1] && "u1"[1] != "u3"[1];
    }
    assert "grpA" != "grpB" by { assert "grpA"[3] != "grpB"[3]; }
    assert "grpB" != "u3" && "grpA" != "u1" by { assert "grpB"[0] != "u3"[0]; }
    assert c.addedUsers == {"u3"};
    assert c.removedUsers == {"u1"};
    assert c.addedGroups == {"grpB"};
    assert c.removedGroups == {"grpA"};
  }

  /** Allowing a user's own group, which brings in that user, is reported as the user alone. */
  lemma OwnGroupReportedAsUser(before: Perm, after: Perm, alice: string)
    requires alice !in before.allowed && alice in after.allowed
    requires alice !in before.correspondingUsers && alice in after.correspondingUsers
    ensures alice in Diff(before, after).addedUsers && alice !in Diff(before, after).addedGroups
  {
  }
}
