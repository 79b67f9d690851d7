/** The admin dashboard: a login gate, dark mode, both remembered in the browser's storage, the path of
    the editor for a content item, and a delete button that changes nothing yet.

    The gate shows the login form until the page's login handler accepts a user name and password. The
    form passes credentials to that handler only when they are the form's own pair, and the handler
    accepts only its own pair; the two passwords differ, so no submission through the form ever opens
    the dashboard. `SubmitLogin` composes the two as written; `SubmitLoginCorrected` composes them with a
    form that checks the handler's pair, after which the right credentials do open the dashboard. */
module AdminDashboard {
  import opened Wrappers
  import opened Text
  import opened AdminLoginForm

  const DashboardUser: string := "admin"
  const DashboardPassword: string := "password"

  const DarkModeKey: string := "darkMode"
  const AuthKey: string := "adminAuthenticated"

  /** The login handler's credential check. */
  predicate DashboardAccepts(username: string, password: string) {
    username == DashboardUser && password == DashboardPassword
  }

  /** No user name and password pass both checks. */
  lemma {:induction false} NoCredentialPassesBoth(username: string, password: string)
    ensures !(FormAccepts(username, password) && DashboardAccepts(username, password))
  {
    assert FormPassword[0] != DashboardPassword[0];
  }

  /** Whether the dashboard is open after one submission of a form whose fixed pair is `formUser` and
      `formPassword`: the form passes on only its own pair, and the handler then authenticates only
      its own. An open gate stays open; a closed one opens exactly when the typed pair passes both. */
  function GateWith(formUser: string, formPassword: string, authenticated: bool, username: string,
                    password: string): (open: bool)
    ensures authenticated ==> open
    ensures !authenticated ==>
      (open <==> FormAcceptsPair(formUser, formPassword, username, password) && DashboardAccepts(username, password))
  {
    if FormAcceptsPair(formUser, formPassword, username, password) then
      authenticated || DashboardAccepts(username, password)
    else authenticated
  }

  /** The gate as written, with the form's own pair: from a closed gate, it stays closed, whatever is
      typed. */
  function GateAfterSubmit(authenticated: bool, username: string, password: string): (open: bool)
    ensures !authenticated ==> !open
    ensures authenticated ==> open
  {
    NoCredentialPassesBoth(username, password);
    GateWith(FormUser, FormPassword, authenticated, username, password)
  }

  /** The gate with a form that checks the handler's own pair: a submission opens a closed gate
      exactly when it carries that pair. */
  function GateAfterSubmitCorrected(authenticated: bool, username: string, password: string): (open: bool)
    ensures open <==> authenticated || (username == DashboardUser && password == DashboardPassword)
  {
    GateWith(DashboardUser, DashboardPassword, authenticated, username, password)
  }

  /** The stored value under `key`, read as a flag: only the text "true" counts. */
  predicate Flag(storage: map<string, string>, key: string) {
    key in storage && storage[key] == "true"
  }

  /** A truthy id: given and not empty. */
  predicate Truthy(id: Option<string>) {
    id.Some? && id.value != ""
  }

  /** The editor path for a content item of type `kind`: the lower-cased type plus "s", then the id and
      "edit" for an existing item, or "new" when there is no id (an empty id counts as none). */
  function EditorPath(kind: string, id: Option<string>): string {
    var prefix := "/" + Lower(kind) + "s/";
    if Truthy(id) then prefix + id.value + "/edit" else prefix + "new"
  }

  /** The parts of an editor path: the type's folder, then the id followed by "/edit", or "new". */
  lemma {:induction false} EditorPathParts(kind: string, id: Option<string>)
    ensures var prefix, path := "/" + Lower(kind) + "s/", EditorPath(kind, id);
      && |prefix| <= |path| && path[..|prefix|] == prefix
      && (Truthy(id) ==> |path| == |prefix| + |id.value| + 5
                         && path[|prefix|..|prefix| + |id.value|] == id.value
                         && path[|prefix| + |id.value|..] == "/edit")
      && (!Truthy(id) ==> path[|prefix|..] == "new")
  {
    var prefix, path := "/" + Lower(kind) + "s/", EditorPath(kind, id);
    if Truthy(id) {
      assert path == prefix + id.value + "/edit";
      assert path[..|prefix|] == prefix;
      assert path[|prefix|..|prefix| + |id.value|] == id.value;
      assert path[|prefix| + |id.value|..] == "/edit";
    } else {
      assert path == prefix + "new";
      assert path[..|prefix|] == prefix;
      assert path[|prefix|..] == "new";
    }
  }

  /** Different existing items of one type get different editor paths. */
  lemma {:induction false} EditorPathInjective(kind: string, a: Option<string>, b: Option<string>)
    requires Truthy(a) && Truthy(b) && EditorPath(kind, a) == EditorPath(kind, b)
    ensures a == b
  {
    var prefix := "/" + Lower(kind) + "s/";
    var path := EditorPath(kind, a);
    EditorPathParts(kind, a);
    EditorPathParts(kind, b);
    assert |a.value| == |b.value|;
    assert a.value == path[|prefix|..|prefix| + |a.value|];
  }

  /** The path for a new item is never the editor path of an existing one. */
  lemma {:induction false} NewIsNotEdit(kind: string, id: Option<string>)
    requires Truthy(id)
    ensures EditorPath(kind, id) != EditorPath(kind, None)
  {
    var prefix := "/" + Lower(kind) + "s/";
    EditorPathParts(kind, id);
    EditorPathParts(kind, None);
    assert |EditorPath(kind, None)| == |prefix| + 3;
  }

  /** Examples: the type is lower-cased, and an empty id opens the new-item editor. */
  lemma {:induction false} EditorPathExamples()
    ensures EditorPath("Article", Some("3")) == "/articles/3/edit"
    ensures EditorPath("Video", Some("")) == "/videos/new"
  {
    assert Lower("Article") == "article" by {
      assert LowerChar('A') == 'a';
      assert Lower("Article")[0] == 'a';
    }
    assert "/" + "article" + "s/" + "3" + "/edit" == "/articles/3/edit";
    assert Lower("Video") == "video" by {
      assert LowerChar('V') == 'v';
      assert Lower("Video")[0] == 'v';
    }
    assert "/" + "video" + "s/" + "new" == "/videos/new";
  }

  /** The dashboard state and the browser storage it writes. */
  class Dashboard {
    var darkMode: bool
    var isAuthenticated: bool
    var storage: map<string, string>

    /** The state agrees with what is stored, so a reload restores it. */
    ghost predicate Persisted()
      reads this
    {
      (darkMode <==> Flag(storage, DarkModeKey)) && (isAuthenticated <==> Flag(storage, AuthKey))
    }

    /** The dashboard once mounted: both flags read from storage. */
    constructor (stored: map<string, string>)
      ensures Persisted() && storage == stored
      ensures darkMode == Flag(stored, DarkModeKey) && isAuthenticated == Flag(stored, AuthKey)
    {
      darkMode := Flag(stored, DarkModeKey);
      isAuthenticated := Flag(stored, AuthKey);
      storage := stored;
    }

    /** The dashboard is shown, rather than the login form, exactly when authenticated. */
    predicate ShowsDashboard()
      reads this
    {
      isAuthenticated
    }

    /** The login handler: the handler's own pair authenticates and is remembered; anything else
        changes nothing. */
    method HandleLogin(username: string, password: string)
      requires Persisted()
      modifies this
      ensures Persisted()
      ensures DashboardAccepts(username, password) ==>
        isAuthenticated && storage == old(storage)[AuthKey := "true"] && darkMode == old(darkMode)
      ensures !DashboardAccepts(username, password) ==> unchanged(this)
    {
      if username == DashboardUser && password == DashboardPassword {
        isAuthenticated := true;
        storage := storage[AuthKey := "true"];
      }
    }

    /** Logging out closes the dashboard and forgets the stored flag. */
    method HandleLogout()
      requires Persisted()
      modifies this
      ensures Persisted()
      ensures !isAuthenticated && storage == old(storage) - {AuthKey} && darkMode == old(darkMode)
    {
      isAuthenticated := false;
      storage := storage - {AuthKey};
    }

    /** Dark mode flips, and the new value is stored as "true" or "false". */
    method ToggleDarkMode()
      requires Persisted()
      modifies this
      ensures Persisted()
      ensures darkMode == !old(darkMode) && isAuthenticated == old(isAuthenticated)
      ensures storage == old(storage)[DarkModeKey := if darkMode then "true" else "false"]
    {
      darkMode := !darkMode;
      storage := storage[DarkModeKey := if darkMode then "true" else "false"];
    }
  }

  /** The login form submitted on the page as written: what the form passes on goes to the handler. */
  method SubmitLogin(form: LoginForm, dash: Dashboard)
    requires dash.Persisted()
    modifies form, dash
    ensures dash.Persisted()
    ensures dash.isAuthenticated == GateAfterSubmit(old(dash.isAuthenticated), old(form.username), old(form.password))
    ensures dash.isAuthenticated == old(dash.isAuthenticated)
  {
    var call := form.Submit();
    if call.Some? {
      NoCredentialPassesBoth(call.value.0, call.value.1);
      dash.HandleLogin(call.value.0, call.value.1);
    }
  }

  /** The submission with a form that checks the handler's own pair: it opens the dashboard exactly for
      that pair. */
  method SubmitLoginCorrected(form: LoginForm, dash: Dashboard)
    requires dash.Persisted()
    modifies form, dash
    ensures dash.Persisted()
    ensures dash.isAuthenticated
      == GateAfterSubmitCorrected(old(dash.isAuthenticated), old(form.username), old(form.password))
  {
    var call := form.SubmitChecking(DashboardUser, DashboardPassword);
    if call.Some? {
      dash.HandleLogin(call.value.0, call.value.1);
    }
  }
}
