/**
 * What the write operations store into an entry: the attribute deltas of
 * _update_ldap_group_permission, permission_url and permission_create.
 */
module Writes {
  import opened Wrappers
  import opened Seqs
  import opened Entries

  /** [str(label)] if label != "" else []: an unset label is str(None), the text "None". */
  function LabelValues(newLabel: Option<string>): (r: seq<string>)
    ensures r == [] <==> newLabel == Some("")
    ensures newLabel.Some? && newLabel.value != "" ==> First(r) == newLabel
    ensures newLabel.None? ==> r == ["None"]
  {
    match newLabel
    case None => ["None"]
    case Some(l) => if l == "" then [] else [l]
  }

  /**
   * The entry permission_create adds: authHeader TRUE, the permission's own name as label,
   * and placeholder FALSE flags that the following group update overwrites.
   */
  function NewEntry(permission: string): (r: Entry)
    ensures r.groupPermission == [] && r.inheritPermission == [] && r.url == [] && r.additionalUrls == []
    ensures View(r).authHeader && !View(r).showTile && !View(r).protected
    ensures View(r).labelValue == Some(permission)
  {
    Entry(
      groupPermission := [], inheritPermission := [], memberUid := [], url := [], additionalUrls := [],
      authHeader := FlagValues(true), labels := [permission],
      showTile := FlagValues(false), isProtected := FlagValues(false))
  }

  /**
   * The write of _update_ldap_group_permission. An argument left unset takes the stored value,
   * and the allowed groups are written once each.
   */
  function GroupsUpdate(e: Entry, allowed: Option<seq<string>>, newLabel: Option<string>,
                        showTile: Option<bool>, protected: Option<bool>): (r: Entry)
    ensures r == e.(groupPermission := r.groupPermission, labels := r.labels,
                    showTile := r.showTile, isProtected := r.isProtected)
    ensures NoDups(r.groupPermission)
    ensures forall g :: g in r.groupPermission <==> g in allowed.GetOr(e.groupPermission)
    ensures View(r).showTile == showTile.GetOr(View(e).showTile)
    ensures View(r).protected == protected.GetOr(View(e).protected)
    ensures r.labels == LabelValues(if newLabel.Some? then newLabel else View(e).labelValue)
  {
    var p := View(e);
    e.(groupPermission := Dedup(allowed.GetOr(p.allowed)),
       labels := LabelValues(if newLabel.Some? then newLabel else p.labelValue),
       showTile := FlagValues(showTile.GetOr(p.showTile)),
       isProtected := FlagValues(protected.GetOr(p.protected)))
  }

  /**
   * The entries the add_url loop appends: for every requested url not yet present, one copy of
   * normalize(url) where `url` is the permission's primary url, not the requested one.
   */
  function AddedUrls(current: seq<Option<string>>, addUrl: seq<string>, url: Option<string>,
                     normalize: Option<string> -> Option<string>): (r: seq<Option<string>>)
    ensures forall x :: x in r ==> x == normalize(url)
    ensures r == [] <==> forall u :: u in addUrl ==> Some(u) in current
  {
    if addUrl == [] then []
    else
      var rest := AddedUrls(current, addUrl[..|addUrl| - 1], url, normalize);
      var u := addUrl[|addUrl| - 1];
      assert forall v :: v in addUrl <==> v in addUrl[..|addUrl| - 1] || v == u by {
        assert addUrl == addUrl[..|addUrl| - 1] + [u];
      }
      rest + (if Some(u) in current then [] else [normalize(url)])
  }

  /** The primary url permission_url writes before clear_urls is applied. */
  function NewPrimaryUrl(e: Entry, url: Option<string>, normalize: Option<string> -> Option<string>)
    : (r: Option<string>)
    ensures url.None? ==> r == First(e.url)
    ensures url.Some? ==> r == normalize(url)
  {
    if url.None? then View(e).url else normalize(url)
  }

  /**
   * new_additional_urls after the add_url loop: the stored list (with its [None] when the attribute
   * is absent) followed by the appended entries.
   */
  function GrownUrls(e: Entry, addUrl: seq<string>, newUrl: Option<string>,
                     normalize: Option<string> -> Option<string>): (r: seq<Option<string>>)
    ensures forall s :: Some(s) in r <==>
      s in e.additionalUrls ||
      (Some(s) == normalize(newUrl) && exists u :: u in addUrl && u !in e.additionalUrls)
  {
    var current := View(e).additionalUrls;
    var added := AddedUrls(current, addUrl, newUrl, normalize);
    assert forall u :: Some(u) in current <==> u in e.additionalUrls;
    assert added != [] <==> exists u :: u in addUrl && u !in e.additionalUrls;
    assert added != [] ==> added[0] in added;
    assert forall x :: x in added <==> added != [] && x == normalize(newUrl);
    current + added
  }

  /** set(urls) as the directory stores it: each present value once, None values dropped. */
  function StoredUrls(urls: seq<Option<string>>): (r: seq<string>)
    ensures NoDups(r)
    ensures forall s :: s in r <==> Some(s) in urls
  {
    Somes(Dedup(urls))
  }

  /** The additional urls permission_url keeps from the grown list: those not in remove_url. */
  function KeptUrls(grown: seq<Option<string>>, removeUrl: seq<string>): (r: seq<Option<string>>)
    ensures forall s :: Some(s) in r <==> Some(s) in grown && s !in removeUrl
  {
    if removeUrl == [] then grown else Without(grown, Wrap(removeUrl))
  }

  /**
   * The write of permission_url: url and auth_header default to the stored values, the add_url
   * entries are grown and the remove_url ones filtered out, clear_urls empties both url
   * attributes, and the additional urls are written once each (None values are not stored).
   */
  function UrlUpdate(e: Entry, url: Option<string>, addUrl: seq<string>, removeUrl: seq<string>,
                     authHeader: Option<bool>, clearUrls: bool,
                     normalize: Option<string> -> Option<string>): (r: Entry)
    ensures r == e.(url := r.url, additionalUrls := r.additionalUrls, authHeader := r.authHeader)
    ensures clearUrls ==> r.url == [] && r.additionalUrls == []
    ensures !clearUrls ==> First(r.url) == NewPrimaryUrl(e, url, normalize)
    ensures NoDups(r.additionalUrls)
    ensures forall s :: s in removeUrl ==> s !in r.additionalUrls
    ensures !clearUrls ==> forall s :: s in r.additionalUrls <==>
      s !in removeUrl &&
      (s in e.additionalUrls ||
       (Some(s) == normalize(NewPrimaryUrl(e, url, normalize)) &&
        exists u :: u in addUrl && u !in e.additionalUrls))
    ensures View(r).authHeader == authHeader.GetOr(View(e).authHeader)
  {
    var newUrl := NewPrimaryUrl(e, url, normalize);
    var kept := KeptUrls(GrownUrls(e, addUrl, newUrl, normalize), removeUrl);
    var finalUrl := if clearUrls then None else newUrl;
    var finalUrls := if clearUrls then [] else kept;
    e.(url := if finalUrl.Some? then [finalUrl.value] else [],
       additionalUrls := StoredUrls(finalUrls),
       authHeader := FlagValues(authHeader.GetOr(View(e).authHeader)))
  }

  /**
   * add_url appends the permission's primary url instead of the url requested: asking for an
   * additional url u on an entry whose primary url is p stores p, and u is not stored.
   */
  lemma AddUrlStoresPrimaryUrl(e: Entry, p: string, u: string, normalize: Option<string> -> Option<string>)
    requires e.url == [p] && e.additionalUrls == [] && u != p
    requires forall x :: normalize(x) == x
    ensures var r := UrlUpdate(e, None, [u], [], None, false, normalize);
      && u !in r.additionalUrls
      && forall s :: s in r.additionalUrls <==> s == p
  {
    assert NewPrimaryUrl(e, None, normalize) == Some(p);
    assert u in [u];
  }
}
