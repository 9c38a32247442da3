/** Permission identities: "<app>.<sub_permission>", and the system permissions. */
module Names {
  import opened Text

  /** SYSTEM_PERMS as the source declares it: the third app is spelled "stfp", not "sftp". */
  const SystemPerms: seq<string> := ["mail", "xmpp", "stfp"]

  /** The app a permission belongs to: permission.split(".")[0]. */
  function AppOf(permission: string): string {
    FirstField(permission)
  }

  /** The sub-permission: permission.split(".")[1]. */
  function SubOf(permission: string): string
    requires '.' in permission
  {
    SecondField(permission)
  }

  predicate IsSystem(permission: string) {
    AppOf(permission) in SystemPerms
  }

  /** A name without a dot stands for the main permission of that app. */
  function Qualify(permission: string): (r: string)
    ensures '.' in r
    ensures '.' in permission ==> r == permission
    ensures '.' !in permission ==> AppOf(r) == permission && SubOf(r) == "main" && EndsWith(r, ".main")
  {
    if '.' in permission then permission
    else
      var r := permission + ".main";
      assert r[|permission|] == '.';
      assert IndexOf(r, '.') == |permission|;
      assert r[|permission| + 1..] == "main";
      r
  }

  /** Qualifying is idempotent, and a qualified name keeps the app it was built from. */
  lemma QualifyIdempotent(permission: string)
    ensures Qualify(Qualify(permission)) == Qualify(permission)
    ensures AppOf(Qualify(permission)) == AppOf(permission)
  {
    if '.' !in permission {
      assert IndexOf(permission, '.') == |permission|;
      assert AppOf(permission) == permission;
    }
  }

  /**
   * Because of the spelling in SystemPerms, the sftp permission is an ordinary one,
   * while a permission of an app called "stfp" is treated as a system permission.
   */
  lemma SftpIsNotSystem()
    ensures !IsSystem(Qualify("sftp"))
    ensures IsSystem(Qualify("stfp"))
    ensures IsSystem(Qualify("mail")) && IsSystem(Qualify("xmpp"))
  {
    assert '.' !in "sftp" && '.' !in "stfp" && '.' !in "mail" && '.' !in "xmpp";
    assert "sftp"[1] != "mail"[1] && "sftp"[0] != "xmpp"[0] && "sftp"[1] != "stfp"[1];
    assert SystemPerms[2] == "stfp";
  }
}
