/**
 * A permission as the directory stores it, and the decoded record the engine works with
 * (the per-permission dict that user_permission_list builds with full=True).
 */
module Entries {
  import opened Wrappers
  import opened Seqs

  /**
   * The attributes of one permission entry. Every attribute is the list of its string values;
   * an empty list is an attribute the entry does not have. Group and user distinguished names
   * are kept as the bare group names and uids they are built from.
   */
  datatype Entry = Entry(
    groupPermission: seq<string>,   // the allowed groups
    inheritPermission: seq<string>, // the users allowed through those groups
    memberUid: seq<string>,         // written together with inheritPermission, never read here
    url: seq<string>,
    additionalUrls: seq<string>,
    authHeader: seq<string>,
    labels: seq<string>,            // the label attribute ('label' is a keyword here)
    showTile: seq<string>,
    isProtected: seq<string>)

  /** The decoded permission record. */
  datatype Perm = Perm(
    allowed: seq<string>,
    correspondingUsers: seq<string>,
    authHeader: bool,
    labelValue: Option<string>,
    showTile: bool,
    protected: bool,
    url: Option<string>,
    additionalUrls: seq<Option<string>>)

  /** infos.get(attr, [None])[0]: the first value, or None when the attribute is absent. */
  function First(values: seq<string>): (r: Option<string>)
    ensures r.None? <==> values == []
    ensures r.Some? ==> r.value == values[0]
  {
    if values == [] then None else Some(values[0])
  }

  /** Boolean flags are decoded literally: only a first value of exactly "FALSE" is false. */
  function DecodeFlag(values: seq<string>): (r: bool)
    ensures r <==> First(values) != Some("FALSE")
  {
    !(values != [] && values[0] == "FALSE")
  }

  /** [str(b).upper()]: the values a boolean flag is written as. */
  function FlagValues(b: bool): (r: seq<string>)
    ensures DecodeFlag(r) == b
    ensures |r| == 1
  {
    if b then ["TRUE"] else ["FALSE"]
  }

  /** Every value of a list, as a present optional value. */
  function Wrap(values: seq<string>): (r: seq<Option<string>>)
    ensures |r| == |values|
    ensures forall i :: 0 <= i < |values| ==> r[i] == Some(values[i])
  {
    seq(|values|, i requires 0 <= i < |values| => Some(values[i]))
  }

  /** infos.get("additionalUrls", [None]): an absent attribute reads as the one-element list [None]. */
  function UrlList(values: seq<string>): (r: seq<Option<string>>)
    ensures values == [] ==> r == [None]
    ensures values != [] ==> |r| == |values| && forall i :: 0 <= i < |values| ==> r[i] == Some(values[i])
    ensures forall s :: Some(s) in r <==> s in values
  {
    if values == [] then [None]
    else
      var r := Wrap(values);
      assert forall s :: s in values ==> Some(s) in r by {
        forall s | s in values ensures Some(s) in r {
          var i :| 0 <= i < |values| && values[i] == s;
          assert r[i] == Some(s);
        }
      }
      r
  }

  /** The record user_permission_list builds for one entry with full=True and full_path=False. */
  function View(e: Entry): (r: Perm)
    ensures r.allowed == e.groupPermission && r.correspondingUsers == e.inheritPermission
    ensures r.labelValue.None? <==> e.labels == []
    ensures r.url.None? <==> e.url == []
    ensures !r.authHeader <==> e.authHeader != [] && e.authHeader[0] == "FALSE"
    ensures !r.showTile <==> e.showTile != [] && e.showTile[0] == "FALSE"
    ensures !r.protected <==> e.isProtected != [] && e.isProtected[0] == "FALSE"
    ensures e.labels != [] ==> r.labelValue == Some(e.labels[0])
    ensures e.url != [] ==> r.url == Some(e.url[0])
    ensures r.additionalUrls == UrlList(e.additionalUrls)
    ensures e.additionalUrls == [] ==> r.additionalUrls == [None]
  {
    Perm(
      allowed := e.groupPermission,
      correspondingUsers := e.inheritPermission,
      authHeader := DecodeFlag(e.authHeader),
      labelValue := First(e.labels),
      showTile := DecodeFlag(e.showTile),
      protected := DecodeFlag(e.isProtected),
      url := First(e.url),
      additionalUrls := UrlList(e.additionalUrls))
  }

  /** A flag decodes to false exactly when its first stored value is "FALSE". */
  lemma FlagDecoding(values: seq<string>)
    ensures !DecodeFlag(values) <==> values != [] && values[0] == "FALSE"
    ensures DecodeFlag([])
    ensures DecodeFlag(["false"]) && DecodeFlag(["TRUE"])
  {
    assert "false" != "FALSE" by { assert "false"[0] != "FALSE"[0]; }
  }
}
