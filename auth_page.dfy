// The guards of the public sign-in page (frontend/src/components/public/AuthPage.js):
// which form the `mode` parameter selects, where `next` may send the user
// after sign-in, and how switching forms rewrites the query string. The
// router, the effects and the rendering are not part of this model.
module AuthPage {
  import opened Wrappers
  import opened Text

  /** `parseMode`: the sign-up form only for exactly `signup`. */
  function ParseMode(value: Option<string>): (mode: string)
    ensures mode == "signup" || mode == "login"
    ensures mode == "signup" <==> value == Some("signup")
  {
    if value == Some("signup") then "signup" else "login"
  }

  const Workspace: string := "/app"

  /** A same-site path: it starts with `/` and not with `//`, which would name another host. */
  predicate IsLocalPath(s: string)
  {
    StartsWith(s, "/") && !StartsWith(s, "//")
  }

  /**
   * `normalizeNext`: the requested path when it is a same-site path, and the
   * workspace otherwise (also for a missing or empty parameter).
   */
  function NormalizeNext(value: Option<string>): (next: string)
    ensures IsLocalPath(next)
    ensures value.Some? && IsLocalPath(value.value) ==> next == value.value
    ensures !(value.Some? && IsLocalPath(value.value)) ==> next == Workspace
  {
    assert Workspace[..1] == "/" && Workspace[..2][1] == 'a';
    if value.None? || value.value == "" then Workspace
    else if !StartsWith(value.value, "/") then Workspace
    else if StartsWith(value.value, "//") then Workspace
    else value.value
  }

  /** A path that passed the guard passes it again unchanged. */
  lemma NormalizeNextIdempotent(value: Option<string>)
    ensures NormalizeNext(Some(NormalizeNext(value))) == NormalizeNext(value)
  {
  }

  /** The guard sends protocol-relative and absolute links to the workspace. */
  lemma NormalizeNextRejectsOtherHosts()
    ensures NormalizeNext(Some("//evil.example")) == Workspace
    ensures NormalizeNext(Some("https://evil.example")) == Workspace
    ensures NormalizeNext(Some("/app/essays")) == "/app/essays"
  {
    assert "//evil.example"[..2] == "//";
    assert "https://evil.example"[..1][0] == 'h';
    assert "/app/essays"[..1] == "/" && "/app/essays"[..2][1] == 'a';
  }

  // ---------------------------------------------------------------------
  // The query string
  // ---------------------------------------------------------------------

  /** One `name=value` pair of a `URLSearchParams`, in order. */
  datatype Param = Param(name: string, value: string)

  /** `params.get(name)`: the value of the first pair with that name. */
  function Get(params: seq<Param>, name: string): (r: Option<string>)
    ensures r.None? <==> forall i :: 0 <= i < |params| ==> params[i].name != name
  {
    if params == [] then None
    else if params[0].name == name then Some(params[0].value)
    else Get(params[1..], name)
  }

  /** How many pairs carry `name`. */
  function CountNamed(params: seq<Param>, name: string): nat
  {
    if params == [] then 0 else (if params[0].name == name then 1 else 0) + CountNamed(params[1..], name)
  }

  /**
   * The pairs without any pair named `name`: no pair carries it any more, and
   * every other name reads back what it read before.
   */
  function RemoveAll(params: seq<Param>, name: string): (r: seq<Param>)
    ensures forall i :: 0 <= i < |r| ==> r[i].name != name
    ensures |r| <= |params|
    ensures CountNamed(r, name) == 0
    ensures forall other :: other != name ==> Get(r, other) == Get(params, other)
  {
    if params == [] then []
    else if params[0].name == name then RemoveAll(params[1..], name)
    else [params[0]] + RemoveAll(params[1..], name)
  }

  /**
   * `params.set(name, value)`: the first pair with that name takes the value
   * and the later ones are removed; without such a pair one is appended.
   * Afterwards the name reads back the new value and is carried by exactly
   * one pair, and every other name reads back what it read before.
   */
  function Set(params: seq<Param>, name: string, value: string): (r: seq<Param>)
    ensures Get(r, name) == Some(value)
    ensures CountNamed(r, name) == 1
    ensures forall other :: other != name ==> Get(r, other) == Get(params, other)
  {
    if params == [] then [Param(name, value)]
    else if params[0].name == name then [Param(name, value)] + RemoveAll(params[1..], name)
    else [params[0]] + Set(params[1..], name, value)
  }

  /** A pair value that `!value` finds falsy: absent or empty. */
  predicate Falsy(value: Option<string>)
  {
    value.None? || value.value == ""
  }

  /**
   * `setMode`: the query string with `mode` set and, when `next` is absent
   * or empty, `next` set to the workspace. Switching forms sets the mode,
   * keeps a non-empty `next`, fills in the workspace for a missing or empty
   * one, and keeps every other parameter.
   */
  function SetMode(params: seq<Param>, mode: string): (r: seq<Param>)
    ensures Get(r, "mode") == Some(mode)
    ensures !Falsy(Get(params, "next")) ==> Get(r, "next") == Get(params, "next")
    ensures Falsy(Get(params, "next")) ==> Get(r, "next") == Some(Workspace)
    ensures forall other :: other != "mode" && other != "next" ==> Get(r, other) == Get(params, other)
  {
    var withMode := Set(params, "mode", mode);
    if Falsy(Get(withMode, "next")) then Set(withMode, "next", Workspace) else withMode
  }

  /** The form a switch asks for is the form the page then shows. */
  lemma SetModeRoundTrip(params: seq<Param>, mode: string)
    requires mode == "login" || mode == "signup"
    ensures ParseMode(Get(SetMode(params, mode), "mode")) == mode
    ensures NormalizeNext(Get(SetMode(params, mode), "next")) == NormalizeNext(Get(params, "next"))
  {
  }
}
