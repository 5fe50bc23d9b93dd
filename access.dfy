/** The page gate that runs on every page load: a table from page file name
    to the roles admitted, a decision to let the page run, send the visitor
    to the login page, or deny and send them elsewhere, and the navigation
    rule that hides links to pages the stored role may not open. The token
    and the role are the values the page finds in browser storage (`null`
    when absent), given here as parameters. */
module Access {
  import opened JsValues

  datatype Role = Admin | User | Driver

  /** The text under which a role is stored and listed. */
  function Name(r: Role): string {
    match r
    case Admin => "admin"
    case User => "user"
    case Driver => "driver"
  }

  /** The role table, page file name to the role names admitted. */
  const PageAccess: map<string, seq<string>> := map[
    "index.html" := ["admin", "user", "driver"],
    "rides.html" := ["admin"],
    "my-rides.html" := ["user"],
    "driver-rides.html" := ["driver"],
    "register-vehicle.html" := ["driver"],
    "users.html" := ["admin"],
    "drivers.html" := ["admin"],
    "transactions.html" := ["admin"],
    "analytics.html" := ["admin"],
    "add-ride.html" := ["admin", "user"],
    "profile.html" := ["admin", "user", "driver"]
  ]

  const HomePage := "index.html"
  const LoginPage := "login.html"
  const RegisterPage := "register.html"

  /** `path.split('/').pop()`: a suffix of `path` without a '/' ... */
  function LastSegment(path: string): (r: string)
    ensures '/' !in r
    ensures |r| <= |path| && r == path[|path| - |r|..]
  {
    if path == [] then []
    else if path[|path| - 1] == '/' then []
    else LastSegment(path[..|path| - 1]) + [path[|path| - 1]]
  }

  /** ... and the longest one: it is the whole path or follows a '/'. */
  lemma {:induction false} LastSegmentFollowsSlash(path: string)
    ensures |LastSegment(path)| < |path| ==> path[|path| - |LastSegment(path)| - 1] == '/'
  {
    if path != [] && path[|path| - 1] != '/' {
      var init := path[..|path| - 1];
      LastSegmentFollowsSlash(init);
      assert LastSegment(path) == LastSegment(init) + [path[|path| - 1]];
      if |LastSegment(path)| < |path| {
        assert path[|path| - |LastSegment(path)| - 1] == init[|init| - |LastSegment(init)| - 1];
      }
    }
  }

  lemma HomePageIsAName()
    ensures HomePage != "" && '/' !in HomePage
  {
    assert HomePage == ['i', 'n', 'd', 'e', 'x', '.', 'h', 't', 'm', 'l'];
  }

  /** The page being loaded: the last path segment, or the home page when
      the path ends in '/'. */
  function CurrentPage(path: string): (page: string)
    ensures page != "" && '/' !in page
    ensures LastSegment(path) != "" ==> page == LastSegment(path)
    ensures LastSegment(path) == "" ==> page == HomePage
  {
    var last := LastSegment(path);
    if last == "" then
      HomePageIsAName();
      HomePage
    else last
  }

  /** Pages that run without a token. */
  predicate IsPublic(page: string) {
    page == LoginPage || page == RegisterPage
  }

  /** The page is in the table and the stored role is not listed for it. A
      role that is absent, or any text other than a listed name, is listed
      nowhere. */
  predicate Forbidden(page: string, role: Value) {
    page in PageAccess && !(role.Str? && role.s in PageAccess[page])
  }

  /** What the gate does: let the page run, send the visitor to the login
      page, or show "Access denied" and go to `target`. */
  datatype Access = Allow | RedirectToLogin | Deny(target: string)

  /** The gate as it is written: a denial always goes to the home page. */
  function CheckPageAsWritten(page: string, token: Value, role: Value): (d: Access)
    ensures IsPublic(page) ==> d == Allow
    ensures d.Deny? ==> d.target == HomePage
  {
    if IsPublic(page) then Allow
    else if !Truthy(token) then RedirectToLogin
    else if Forbidden(page, role) then Deny(HomePage)
    else Allow
  }

  /** When the stored role admits no listed page (it is missing or has a
      name outside the three; logging in with a token whose payload lacks
      the role field stores such a value), the home page itself denies, so
      the gate as written sends the visitor from the home page to the home
      page, alerting on every load. */
  lemma HomeDenialLoopsAsWritten(token: Value, role: Value)
    requires Truthy(token)
    requires role != Str("admin") && role != Str("user") && role != Str("driver")
    ensures CheckPageAsWritten(HomePage, token, role) == Deny(HomePage)
  {
  }

  /** Where a denied visitor is sent: home, unless home denies them too, in
      which case the login page. */
  function DenialTarget(role: Value): (target: string)
    ensures !Forbidden(HomePage, role) ==> target == HomePage
    ensures Forbidden(HomePage, role) ==> target == LoginPage
  {
    if Forbidden(HomePage, role) then LoginPage else HomePage
  }

  /** The gate with the denial sent to a page that admits the visitor. It
      never redirects on the login and registration pages, always sends a
      visitor without a token to login, and denies exactly a listed page
      whose list lacks the stored role. */
  function CheckPage(page: string, token: Value, role: Value): (d: Access)
    ensures IsPublic(page) ==> d == Allow
    ensures !IsPublic(page) && !Truthy(token) ==> d == RedirectToLogin
    ensures d.Deny? <==> !IsPublic(page) && Truthy(token) && Forbidden(page, role)
    ensures d == Allow <==> IsPublic(page) || (Truthy(token) && !Forbidden(page, role))
  {
    if IsPublic(page) then Allow
    else if !Truthy(token) then RedirectToLogin
    else if Forbidden(page, role) then Deny(DenialTarget(role))
    else Allow
  }

  /** Wherever the corrected gate sends a visitor, the gate of that page
      lets them stay: no redirect is followed by another. */
  lemma {:induction false} RedirectsSettle(page: string, token: Value, role: Value)
    ensures CheckPage(page, token, role).Deny? ==>
              CheckPage(CheckPage(page, token, role).target, token, role) == Allow
    ensures CheckPage(page, token, role) == RedirectToLogin ==>
              CheckPage(LoginPage, token, role) == Allow
  {
    var d := CheckPage(page, token, role);
    if d.Deny? {
      assert Truthy(token);
      if Forbidden(HomePage, role) {
        assert d.target == LoginPage && IsPublic(LoginPage);
      } else {
        assert d.target == HomePage && !IsPublic(HomePage);
      }
    }
  }

  /** The corrected gate (not the gate as written, which is
      `CheckPageAsWritten`) run on the page named by `path`. It denies on the
      same paths as the written `checkPageAccess()`; a path ending in '/' is
      judged as the home page; and a path naming the login or registration
      page always lets it run. */
  function CheckPageAccess(path: string, token: Value, role: Value): (d: Access)
    ensures d.Deny? <==> CheckPageAsWritten(CurrentPage(path), token, role).Deny?
    ensures LastSegment(path) == "" ==> d == CheckPage(HomePage, token, role)
    ensures IsPublic(LastSegment(path)) ==> d == Allow
  {
    CheckPage(CurrentPage(path), token, role)
  }

  /** The corrected gate differs from the written one only in where a denial
      goes. */
  lemma CheckPageRefinesAsWritten(page: string, token: Value, role: Value)
    ensures CheckPage(page, token, role).Deny? <==> CheckPageAsWritten(page, token, role).Deny?
    ensures !CheckPage(page, token, role).Deny? ==>
              CheckPage(page, token, role) == CheckPageAsWritten(page, token, role)
    ensures Forbidden(HomePage, role) || CheckPage(page, token, role) == CheckPageAsWritten(page, token, role)
  {
  }

  /** The navigation rule: a link is hidden exactly when its href names a
      page in the table whose list lacks the stored role. */
  predicate NavLinkHidden(href: Value, role: Value) {
    Truthy(href) && Forbidden(href.s, role)
  }

  /** For a visitor holding a token, a link to a listed page is hidden
      exactly when the gate of that page would deny them; so every link
      left visible (listed or not) leads to a page the gate lets run. */
  lemma {:induction false} NavAgreesWithGate(href: string, path: string, token: Value, role: Value)
    requires Truthy(token)
    requires href != "" && CurrentPage(path) == href
    ensures href in PageAccess ==>
              (NavLinkHidden(Str(href), role) <==> CheckPageAccess(path, token, role).Deny?)
    ensures !NavLinkHidden(Str(href), role) ==> CheckPageAccess(path, token, role) == Allow
  {
    assert !IsPublic(href) ==> (CheckPage(href, token, role) == Allow <==> !Forbidden(href, role));
    assert href in PageAccess ==> !IsPublic(href);
  }

  /** A navigation link to `p` leads to the page `p`. */
  lemma {:induction false} LinkPathNamesPage(dir: string, page: string)
    requires page != "" && '/' !in page
    ensures CurrentPage(dir + "/" + page) == page
  {
    var path := dir + "/" + page;
    var last := LastSegment(path);
    LastSegmentFollowsSlash(path);
    assert path[|path| - |page|..] == page;
    assert path[|path| - |page| - 1] == '/';
  }

  /** Each of the three roles may open the home and profile pages, and the
      administration pages admit the administrator alone. */
  lemma RoleTable(r: Role, page: string)
    ensures !Forbidden(HomePage, Str(Name(r))) && !Forbidden("profile.html", Str(Name(r)))
    ensures page in {"rides.html", "users.html", "drivers.html", "transactions.html", "analytics.html"} ==>
              (!Forbidden(page, Str(Name(r))) <==> r == Admin)
  {
  }
}
