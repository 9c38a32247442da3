/** Completion of a permission's stored url fragment into an absolute url (`_complete_url`). */
module Urls {
  import opened Wrappers
  import opened Errors
  import opened Text
  import opened Names

  const RegexMarker := "re:"

  /** The argument of lstrip('re:/'), which Python reads as a set of characters, not a prefix. */
  const RegexStripChars: set<char> := {'r', 'e', ':', '/'}

  /**
   * `url` completed against `prefixes[app]`, the domain followed by the path of the permission's app.
   * A fragment starting with "/" is appended to the prefix without its trailing slashes; a fragment
   * starting with "re:/" keeps its "re:" marker in front of the prefix and loses every leading
   * character from "re:/"; anything else is already absolute. An app without settings is a KeyError.
   */
  function CompleteUrl(url: Option<string>, permission: string, prefixes: map<string, string>)
    : (r: Result<Option<string>, Error>)
    ensures url.None? ==> r == Ok(None)
    ensures r.Err? ==> r.error == AppSettingMissing && AppOf(permission) !in prefixes
    ensures url.Some? && !StartsWith(url.value, "/") && !StartsWith(url.value, "re:/") ==> r == Ok(url)
    ensures url.Some? && StartsWith(url.value, "/") ==>
      (r.Ok? <==> AppOf(permission) in prefixes) &&
      (r.Ok? ==>
        && r.value.Some?
        && var prefix, u, out := prefixes[AppOf(permission)], url.value, r.value.value;
        && StartsWith(out, prefix)
        && out[|prefix|..] <= u
        && (out == prefix || out[|out| - 1] != '/')
        && forall i :: |out| - |prefix| <= i < |u| ==> u[i] == '/')
    ensures url.Some? && StartsWith(url.value, "re:/") ==>
      (r.Ok? <==> AppOf(permission) in prefixes) &&
      (r.Ok? ==>
        && r.value.Some?
        && StartsWith(r.value.value, RegexMarker + prefixes[AppOf(permission)])
        && var prefix, u, out := prefixes[AppOf(permission)], url.value, r.value.value;
        var rest := out[|RegexMarker| + |prefix|..];
        && |rest| <= |u| && rest == u[|u| - |rest|..]
        && (rest == [] || rest[0] !in RegexStripChars)
        && forall i :: 0 <= i < |u| - |rest| ==> u[i] in RegexStripChars)
  {
    match url
    case None => Ok(None)
    case Some(u) =>
      var app := AppOf(permission);
      assert StartsWith(u, "/") ==> !StartsWith(u, "re:/") by {
        if StartsWith(u, "/") { assert u[0] == "/"[0]; }
      }
      if StartsWith(u, "/") then
        if app in prefixes then Ok(Some(prefixes[app] + RStrip(u, '/'))) else Err(AppSettingMissing)
      else if StartsWith(u, "re:/") then
        if app in prefixes then Ok(Some(RegexMarker + prefixes[app] + LStrip(u, RegexStripChars)))
        else Err(AppSettingMissing)
      else Ok(Some(u))
  }

  /** [_complete_url(u, name) for u in urls]: the first failing completion aborts the list. */
  function CompleteAll(urls: seq<Option<string>>, permission: string, prefixes: map<string, string>)
    : (r: Result<seq<Option<string>>, Error>)
    ensures r.Ok? <==> forall i :: 0 <= i < |urls| ==> CompleteUrl(urls[i], permission, prefixes).Ok?
    ensures r.Ok? ==>
      && |r.value| == |urls|
      && forall i :: 0 <= i < |urls| ==> r.value[i] == CompleteUrl(urls[i], permission, prefixes).value
    ensures r.Err? ==> r.error == AppSettingMissing
  {
    if urls == [] then Ok([])
    else
      match CompleteUrl(urls[0], permission, prefixes)
      case Err(e) => Err(e)
      case Ok(u) =>
        match CompleteAll(urls[1..], permission, prefixes)
        case Err(e) =>
          assert forall i :: 1 <= i < |urls| ==> urls[i] == urls[1..][i - 1];
          Err(e)
        case Ok(us) =>
          assert forall i :: 1 <= i < |urls| ==> urls[i] == urls[1..][i - 1];
          Ok([u] + us)
  }

  /** LStrip removes a leading run of characters of `cs` and stops at the first one outside it. */
  lemma {:induction false} LStripRun(p: string, t: string, cs: set<char>)
    requires forall i :: 0 <= i < |p| ==> p[i] in cs
    requires t == [] || t[0] !in cs
    ensures LStrip(p + t, cs) == t
  {
    if p == [] {
      assert p + t == t;
    } else {
      assert (p + t)[1..] == p[1..] + t;
      LStripRun(p[1..], t, cs);
    }
  }

  /** "/" (or any run of slashes) completes to exactly the app's domain and path. */
  lemma RootIsAppPrefix(permission: string, prefixes: map<string, string>, n: nat)
    requires AppOf(permission) in prefixes
    ensures CompleteUrl(Some(seq(n + 1, _ => '/')), permission, prefixes) == Ok(Some(prefixes[AppOf(permission)]))
  {
    var u := seq(n + 1, _ => '/');
    assert u[..1] == "/";
    var s := RStrip(u, '/');
    assert s == [];
    assert prefixes[AppOf(permission)] + s == prefixes[AppOf(permission)];
  }

  /** A fragment starting with "/" and no trailing slash is appended to the prefix as it is. */
  lemma RelativeFragmentAppended(permission: string, prefixes: map<string, string>, frag: string)
    requires AppOf(permission) in prefixes
    requires frag != [] && frag[|frag| - 1] != '/'
    ensures CompleteUrl(Some("/" + frag), permission, prefixes) == Ok(Some(prefixes[AppOf(permission)] + "/" + frag))
  {
    var u := "/" + frag;
    assert u[..1] == "/";
    assert u[|u| - 1] == frag[|frag| - 1];
    assert RStrip(u, '/') == u;
    assert prefixes[AppOf(permission)] + u == prefixes[AppOf(permission)] + "/" + frag;
  }

  /**
   * A regex fragment "re:/" + frag, where frag does not itself start with one of the stripped
   * characters, loses the slash after "re:": the completed regex is "re:" + prefix + frag.
   */
  lemma RegexFragmentLosesSlash(permission: string, prefixes: map<string, string>, frag: string)
    requires AppOf(permission) in prefixes
    requires frag == [] || frag[0] !in RegexStripChars
    ensures CompleteUrl(Some("re:/" + frag), permission, prefixes) == Ok(Some("re:" + prefixes[AppOf(permission)] + frag))
  {
    var u := "re:/" + frag;
    assert u[..4] == "re:/";
    assert u[0] == 'r';
    LStripRun("re:/", frag, RegexStripChars);
  }

  /** The app of the permission the docstring examples use. */
  lemma ExampleApp()
    ensures AppOf("myapp.main") == "myapp"
  {
    assert Qualify("myapp") == "myapp.main";
  }

  /**
   * The examples of the permission_create docstring, as the code computes them for an app installed
   * at example.org/myapp: "/admin" is appended to the prefix ...
   */
  lemma RelativeExampleAsWritten()
    ensures CompleteUrl(Some("/admin"), "myapp.main", map["myapp" := "example.org/myapp"])
      == Ok(Some("example.org/myapp" + "/admin"))
  {
    var m := map["myapp" := "example.org/myapp"];
    ExampleApp();
    RelativeFragmentAppended("myapp.main", m, "admin");
    assert "/" + "admin" == "/admin";
  }

  /**
   * ... but "re:/api/[A-Z]*$" loses the slash after "re:", so the completed regex lacks the
   * separator that the docstring shows between the app path and "api".
   */
  lemma RegexExampleAsWritten()
    ensures CompleteUrl(Some("re:/api/[A-Z]*$"), "myapp.main", map["myapp" := "example.org/myapp"])
      == Ok(Some("re:" + "example.org/myapp" + "api/[A-Z]*$"))
  {
    var m := map["myapp" := "example.org/myapp"];
    ExampleApp();
    var frag := "api/[A-Z]*$";
    assert frag[0] == 'a';
    RegexFragmentLosesSlash("myapp.main", m, frag);
    assert "re:/api/[A-Z]*$" == "re:/" + frag;
  }

  /**
   * lstrip takes a character set: every leading 'r', 'e', ':' or '/' goes, so "re:/rest"
   * completes with "st" and not "rest".
   */
  lemma RegexStripsCharacterSet(permission: string, prefixes: map<string, string>)
    requires AppOf(permission) in prefixes
    ensures CompleteUrl(Some("re:/rest"), permission, prefixes)
      == Ok(Some("re:" + prefixes[AppOf(permission)] + "st"))
  {
    var x := "re:/rest";
    assert x[..4] == "re:/" && x[0] == 'r';
    assert x == "re:/re" + "st";
    LStripRun("re:/re", "st", RegexStripChars);
  }

}
