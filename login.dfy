/** The login page: the credential check, where a session is remembered, the
    order in which the two browser storages are consulted, and the key buffer
    behind the Konami-code shortcut. */
module Login {
  import opened Common

  // ---------------------------------------------------------------------
  // authenticateUser

  /** `String.prototype.toLowerCase` on the ASCII letters. No other code point
      lower-cases into one of the letters of the only user name in the table
      (the dotted capital I lower-cases to two code points), so the table
      lookup below is exact for every input. */
  function ToLowerAscii(s: string): (r: string)
    ensures |r| == |s|
    ensures forall i :: 0 <= i < |s| ==>
              r[i] == if 'A' <= s[i] <= 'Z' then (s[i] as int + 32) as char else s[i]
  {
    if s == [] then []
    else [if 'A' <= s[0] <= 'Z' then (s[0] as int + 32) as char else s[0]] + ToLowerAscii(s[1..])
  }

  /** The hard-coded credential table: user name to password. */
  const Credentials: map<string, string> := map["admin" := "admin"]

  /** The lower-cased user name must be an own key of the table and the
      password must equal its entry exactly. */
  predicate Authenticate(username: string, password: string)
  {
    var key := ToLowerAscii(username);
    key in Credentials && Credentials[key] == password
  }

  /** A name matches "admin" in any mix of upper and lower case. */
  predicate IsAdminInAnyCase(username: string)
  {
    |username| == 5 && forall i :: 0 <= i < 5 ==> username[i] == "admin"[i] || username[i] == "ADMIN"[i]
  }

  /** Exactly one account exists: "admin" in any case for the name, and
      "admin" exactly for the password. */
  lemma AuthenticateAcceptsOnlyAdmin(username: string, password: string)
    ensures Authenticate(username, password) <==> IsAdminInAnyCase(username) && password == "admin"
  {
    var key := ToLowerAscii(username);
    if IsAdminInAnyCase(username) {
      assert key == "admin";
    }
    if key == "admin" {
      forall i | 0 <= i < 5 ensures username[i] == "admin"[i] || username[i] == "ADMIN"[i] {
        assert key[i] == "admin"[i];
      }
    }
  }

  // ---------------------------------------------------------------------
  // handleLogin

  datatype Outcome =
    | MissingFields  // "Por favor completa todos los campos"
    | Denied         // "Usuario o contraseña incorrectos"
    | Accepted

  /** The decision taken by handleLogin for the two form fields: the user name
      is trimmed, the password is not, and an empty field is reported before
      any credential check. */
  function Attempt(usernameInput: string, password: string): (r: Outcome)
    ensures r == MissingFields <==> Trim(usernameInput) == [] || password == []
    ensures r == Accepted <==> IsAdminInAnyCase(Trim(usernameInput)) && password == "admin"
  {
    AuthenticateAcceptsOnlyAdmin(Trim(usernameInput), password);
    var username := Trim(usernameInput);
    if username == [] || password == [] then MissingFields
    else if Authenticate(username, password) then Accepted
    else Denied
  }

  /** White space around the user name is ignored; around the password it is not. */
  lemma PaddedNameIsAccepted()
    ensures Attempt("  Admin ", "admin") == Accepted
  {
    assert TrimStart(" Admin ") == "Admin ";
    assert TrimEnd("Admin ") == "Admin";
    assert IsAdminInAnyCase("Admin");
  }

  lemma PaddedPasswordIsDenied()
    ensures Attempt("admin", " admin") == Denied
  {
    assert Trim("admin") == "admin";
  }

  /** A blank field is reported as missing, whatever the other one holds. */
  lemma BlankFieldIsMissing()
    ensures Attempt(" \t", "admin") == MissingFields
    ensures Attempt("root", "") == MissingFields
  {
    TrimEmptyIffBlank(" \t");
  }

  // ---------------------------------------------------------------------
  // The stored session

  /** The object written under the key `odysseySession`. */
  datatype Session = Session(username: string, loginTime: string, isAuthenticated: bool)

  /** getSessionData: the local-storage entry wins over the session-storage one. */
  function SessionOf(local: Option<Session>, tab: Option<Session>): (r: Option<Session>)
    ensures r.None? <==> local.None? && tab.None?
    ensures local.Some? ==> r == local
    ensures local.None? ==> r == tab
  {
    if local.Some? then local else tab
  }

  /** checkExistingSession: a stored, authenticated session skips the form. */
  predicate AlreadyLoggedIn(local: Option<Session>, tab: Option<Session>)
  {
    var s := SessionOf(local, tab);
    s.Some? && s.value.isAuthenticated
  }

  /** The form is skipped exactly when the entry read first, the local one
      if present, is an authenticated session. */
  lemma AlreadyLoggedInSpec(local: Option<Session>, tab: Option<Session>)
    ensures AlreadyLoggedIn(local, tab) <==>
      (local.Some? && local.value.isAuthenticated) || (local.None? && tab.Some? && tab.value.isAuthenticated)
    ensures local.Some? && !local.value.isAuthenticated ==> !AlreadyLoggedIn(local, tab)
  {
  }

  /** A session remembered earlier hides a newer one kept only for the tab:
      getSessionData keeps reporting the earlier user. */
  lemma RememberedSessionShadowsNewer(remembered: Session, newer: Session)
    ensures SessionOf(Some(remembered), Some(newer)) == Some(remembered)
  {
  }

  /** The two `odysseySession` entries of the browser: `local` survives the
      browser being closed, `tab` (session storage) does not. */
  class BrowserStorage {
    var local: Option<Session>
    var tab: Option<Session>

    constructor(local: Option<Session>, tab: Option<Session>)
      ensures this.local == local && this.tab == tab
    {
      this.local := local;
      this.tab := tab;
    }

    /** createUserSession: exactly one of the two entries is written. */
    method CreateUserSession(username: string, rememberMe: bool, loginTime: string)
      modifies this
      ensures rememberMe ==> local == Some(Session(username, loginTime, true)) && tab == old(tab)
      ensures !rememberMe ==> tab == Some(Session(username, loginTime, true)) && local == old(local)
      ensures old(local).None? || rememberMe ==> SessionOf(local, tab) == Some(Session(username, loginTime, true))
    {
      var s := Session(username, loginTime, true);
      if rememberMe {
        local := Some(s);
      } else {
        tab := Some(s);
      }
    }

    /** getSessionData, as exposed to the other pages. */
    method GetSessionData() returns (s: Option<Session>)
      ensures s == SessionOf(local, tab)
    {
      if local.Some? {
        s := local;
      } else if tab.Some? {
        s := tab;
      } else {
        s := None;
      }
    }

    /** handleLogin, with the delayed body run at once: only an accepted
        attempt stores a session, under the trimmed user name. */
    method HandleLogin(usernameInput: string, password: string, rememberMe: bool, loginTime: string)
      returns (outcome: Outcome)
      modifies this
      ensures outcome == Attempt(usernameInput, password)
      ensures outcome != Accepted ==> local == old(local) && tab == old(tab)
      ensures outcome == Accepted && rememberMe ==>
                local == Some(Session(Trim(usernameInput), loginTime, true)) && tab == old(tab)
      ensures outcome == Accepted && !rememberMe ==>
                tab == Some(Session(Trim(usernameInput), loginTime, true)) && local == old(local)
    {
      var username := Trim(usernameInput);
      if username == [] || password == [] {
        return MissingFields;
      }
      if Authenticate(username, password) {
        CreateUserSession(username, rememberMe, loginTime);
        outcome := Accepted;
      } else {
        outcome := Denied;
      }
    }

    /** logout: both entries are removed, so no page sees a session. */
    method Logout()
      modifies this
      ensures local.None? && tab.None?
      ensures !AlreadyLoggedIn(local, tab)
    {
      local := None;
      tab := None;
    }
  }

  // ---------------------------------------------------------------------
  // The Konami-code shortcut

  /** Up Up Down Down Left Right Left Right B A, as key codes. */
  const KonamiCode: seq<int> := [38, 38, 40, 40, 37, 39, 37, 39, 66, 65]

  /** The last `n` elements of `s` (all of them when there are fewer). */
  function LastN(s: seq<int>, n: nat): (r: seq<int>)
    ensures |r| == if |s| <= n then |s| else n
    ensures forall i :: 0 <= i < |r| ==> r[i] == s[|s| - |r| + i]
  {
    if |s| <= n then s else s[|s| - n..]
  }

  /** Keeping a window of the last `n` keys one key at a time gives the same
      window as taking it from the whole history. */
  lemma LastNStep(s: seq<int>, x: int, n: nat)
    requires n > 0
    ensures LastN(LastN(s, n) + [x], n) == LastN(s + [x], n)
  {
    var w := LastN(s, n) + [x];
    var a := LastN(w, n);
    var b := LastN(s + [x], n);
    assert |a| == |b|;
    forall i | 0 <= i < |a| ensures a[i] == b[i] {
      if i == |a| - 1 {
        assert a[i] == x && b[i] == x;
      } else {
        assert a[i] == w[|w| - |a| + i] == LastN(s, n)[|w| - |a| + i];
      }
    }
  }

  /** The keys pressed on the login page and the buffer the handler keeps. */
  class KonamiBuffer {
    var sequence: seq<int>
    ghost var received: seq<int>

    ghost predicate Valid()
      reads this
    {
      sequence == LastN(received, |KonamiCode|)
    }

    constructor()
      ensures Valid() && received == [] && sequence == []
    {
      sequence := [];
      received := [];
    }

    /** The keydown handler: push the key, drop the oldest one when the buffer
        outgrows the code, and fire when the buffer spells the code. It fires
        exactly when the last ten keys received are the code. */
    method KeyDown(keyCode: int) returns (fired: bool)
      requires Valid()
      modifies this
      ensures Valid() && received == old(received) + [keyCode]
      ensures |sequence| <= |KonamiCode|
      ensures fired <==> |received| >= |KonamiCode| && received[|received| - |KonamiCode|..] == KonamiCode
    {
      LastNStep(received, keyCode, |KonamiCode|);
      received := received + [keyCode];
      sequence := sequence + [keyCode];
      if |sequence| > |KonamiCode| {
        sequence := sequence[1..];
      }
      fired := |sequence| == |KonamiCode| && forall i :: 0 <= i < |sequence| ==> sequence[i] == KonamiCode[i];
      assert fired <==> sequence == KonamiCode;
    }
  }

  /** The shortcut fills in admin / admin, which the form then accepts. */
  lemma KonamiCredentialsAreAccepted()
    ensures Attempt("admin", "admin") == Accepted
  {
    assert Trim("admin") == "admin";
  }
}
