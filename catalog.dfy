/** The read model: user_permission_list over the stored entries. */
module Catalog {
  import opened Wrappers
  import opened Errors
  import opened Names
  import opened Urls
  import opened Entries

  /** What user_permission_list returns: the names only (short), the allowed groups only, or full records. */
  datatype Listing =
    | Names(names: set<string>)
    | AllowedOnly(allowed: map<string, seq<string>>)
    | Detailed(records: map<string, Perm>)
  {
    function Keys(): set<string> {
      match this
      case Names(n) => n
      case AllowedOnly(m) => m.Keys
      case Detailed(m) => m.Keys
    }
  }

  /** Whether a permission appears in a listing that may ignore the system permissions. */
  predicate Shown(permission: string, ignoreSystemPerms: bool)
    ensures !ignoreSystemPerms ==> Shown(permission, ignoreSystemPerms)
    ensures ignoreSystemPerms ==> (Shown(permission, ignoreSystemPerms) <==> AppOf(permission) !in SystemPerms)
  {
    !(ignoreSystemPerms && IsSystem(permission))
  }

  /**
   * One full record. With full_path, the url and the additional urls of a non-system permission
   * are completed against the app's domain and path; everything else is the stored value decoded.
   */
  function ResolvedPerm(permission: string, e: Entry, prefixes: map<string, string>, fullPath: bool)
    : (r: Result<Perm, Error>)
    ensures !fullPath || IsSystem(permission) ==> r == Ok(View(e))
    ensures r.Err? ==> r.error == AppSettingMissing && fullPath && !IsSystem(permission)
    ensures r.Ok? ==> r.value == View(e).(url := r.value.url, additionalUrls := r.value.additionalUrls)
    ensures fullPath && !IsSystem(permission) ==>
      (r.Ok? <==> CompleteUrl(View(e).url, permission, prefixes).Ok?
                  && CompleteAll(View(e).additionalUrls, permission, prefixes).Ok?)
    ensures fullPath && !IsSystem(permission) && r.Ok? ==>
      && r.value.url == CompleteUrl(View(e).url, permission, prefixes).value
      && r.value.additionalUrls == CompleteAll(View(e).additionalUrls, permission, prefixes).value
  {
    var p := View(e);
    if fullPath && !IsSystem(permission) then
      match CompleteUrl(p.url, permission, prefixes)
      case Err(err) => Err(err)
      case Ok(u) =>
        match CompleteAll(p.additionalUrls, permission, prefixes)
        case Err(err) => Err(err)
        case Ok(us) => Ok(p.(url := u, additionalUrls := us))
    else Ok(p)
  }

  /**
   * user_permission_list(full=True): a record for every shown permission. Completing a url of an
   * app without settings raises, and then no listing is returned at all.
   */
  function PermissionDetails(perms: map<string, Entry>, prefixes: map<string, string>,
                             ignoreSystemPerms: bool, fullPath: bool)
    : (r: Result<map<string, Perm>, Error>)
    ensures !fullPath ==> r.Ok?
    ensures r.Ok? <==> forall n :: n in perms && Shown(n, ignoreSystemPerms) ==>
                                   ResolvedPerm(n, perms[n], prefixes, fullPath).Ok?
    ensures r.Err? ==> r.error == AppSettingMissing
    ensures r.Ok? ==> forall n :: n in r.value <==> n in perms && Shown(n, ignoreSystemPerms)
    ensures r.Ok? ==> forall n :: n in r.value ==> r.value[n] == ResolvedPerm(n, perms[n], prefixes, fullPath).value
  {
    if forall n :: n in perms && Shown(n, ignoreSystemPerms) ==> ResolvedPerm(n, perms[n], prefixes, fullPath).Ok? then
      Ok(map n | n in perms && Shown(n, ignoreSystemPerms) :: ResolvedPerm(n, perms[n], prefixes, fullPath).value)
    else Err(AppSettingMissing)
  }

  /** user_permission_list(short, full, ignore_system_perms, full_path). */
  function UserPermissionList(perms: map<string, Entry>, prefixes: map<string, string>,
                              short: bool, full: bool, ignoreSystemPerms: bool, fullPath: bool)
    : (r: Result<Listing, Error>)
    ensures !full || !fullPath ==> r.Ok?
    ensures r.Ok? ==> forall n :: n in r.value.Keys() <==> n in perms && Shown(n, ignoreSystemPerms)
    ensures r.Ok? ==> (short <==> r.value.Names?) && (!short ==> (full <==> r.value.Detailed?))
    ensures r.Ok? && r.value.AllowedOnly? ==>
      forall n :: n in r.value.allowed ==> r.value.allowed[n] == perms[n].groupPermission
    ensures r.Ok? && r.value.Detailed? ==>
      forall n :: n in r.value.records ==> r.value.records[n].allowed == perms[n].groupPermission
    ensures full ==> (r.Ok? <==> PermissionDetails(perms, prefixes, ignoreSystemPerms, fullPath).Ok?)
    ensures r.Ok? && r.value.Detailed? ==> r.value.records == PermissionDetails(perms, prefixes, ignoreSystemPerms, fullPath).value
  {
    if !full then
      var m := map n | n in perms && Shown(n, ignoreSystemPerms) :: perms[n].groupPermission;
      Ok(if short then Names(m.Keys) else AllowedOnly(m))
    else
      match PermissionDetails(perms, prefixes, ignoreSystemPerms, fullPath)
      case Err(e) => Err(e)
      case Ok(m) => Ok(if short then Names(m.Keys) else Detailed(m))
  }

  /** The full record of one permission with completed urls, as the write operations return it. */
  function Refreshed(perms: map<string, Entry>, prefixes: map<string, string>, permission: string)
    : (r: Result<Perm, Error>)
    requires permission in perms
    ensures r.Err? ==> r.error == AppSettingMissing
    ensures r.Ok? ==> r.value == View(perms[permission]).(url := r.value.url, additionalUrls := r.value.additionalUrls)
    ensures r.Ok? <==> PermissionDetails(perms, prefixes, false, true).Ok?
    ensures r.Ok? ==> r.value == ResolvedPerm(permission, perms[permission], prefixes, true).value
  {
    match PermissionDetails(perms, prefixes, false, true)
    case Err(e) => Err(e)
    case Ok(m) => Ok(m[permission])
  }

  /**
   * user_permission_list(full=True, full_path=False)["permissions"].get(name): the stored record
   * decoded as it is, or None for a permission the directory does not have.
   */
  function Lookup(perms: map<string, Entry>, name: string): (r: Option<Perm>)
    ensures r.Some? <==> name in perms
    ensures r.Some? ==> r.value == PermissionDetails(perms, map[], false, false).value[name]
  {
    if name in perms then Some(View(perms[name])) else None
  }
}
