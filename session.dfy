/**
 * The authentication flow of the root component: which page is shown, the
 * signed-in user, the data collected during onboarding and the user record kept
 * in browser storage (modelled as two fields, without serialisation).
 */
module Session {
  import opened Wrappers
  import opened Entities

  datatype AuthState = LoginPage | SignupPage | CompanyInfoPage | EmployeeInfoPage | Authenticated

  datatype User = User(firstName: string, lastName: string, email: string,
                       company: Option<CompanyData>, employees: Option<seq<Employee>>)

  /** Every field the flow reads or writes; `storedUser` and `storedEmployees` are the saved entries. */
  datatype SessionState = SessionState(
    authState: AuthState,
    currentUser: Option<User>,
    pendingSignup: Option<SignupData>,
    pendingCompany: Option<CompanyData>,
    employees: seq<Employee>,
    storedUser: Option<User>,
    storedEmployees: Option<seq<Employee>>)

  /** The user a login creates when no saved user has that email. */
  function DemoUser(email: string): User
  {
    User("User", "", email, None, None)
  }

  /** Nobody is shown the application without a signed-in user. */
  predicate SignedInWhenAuthenticated(s: SessionState)
  {
    s.authState == Authenticated ==> s.currentUser.Some?
  }

  /** The initial state, given what storage holds before the mount effect. */
  function Initial(storedUser: Option<User>, storedEmployees: Option<seq<Employee>>): (s: SessionState)
    ensures s.authState == LoginPage && s.currentUser == None && SignedInWhenAuthenticated(s)
  {
    SessionState(LoginPage, None, None, None, [], storedUser, storedEmployees)
  }

  /** The mount effect: a saved user signs in straight away; saved employees are restored. */
  function Restore(s: SessionState): (r: SessionState)
    ensures SignedInWhenAuthenticated(s) ==> SignedInWhenAuthenticated(r)
    ensures s.storedUser.Some? ==> r.authState == Authenticated && r.currentUser == s.storedUser
    ensures s.storedUser == None ==> r.authState == s.authState && r.currentUser == s.currentUser
    ensures r.employees == (if s.storedEmployees.Some? then s.storedEmployees.value else s.employees)
    ensures r.storedUser == s.storedUser && r.storedEmployees == s.storedEmployees
  {
    var s1 := if s.storedUser.Some? then s.(currentUser := s.storedUser, authState := Authenticated) else s;
    if s.storedEmployees.Some? then s1.(employees := s.storedEmployees.value) else s1
  }

  /** The links between the login and signup pages. */
  function ShowSignup(s: SessionState): SessionState
  {
    s.(authState := SignupPage)
  }

  function ShowLogin(s: SessionState): SessionState
  {
    s.(authState := LoginPage)
  }

  /** `handleSignup`: keep the data, go on to the company page. */
  function OnSignup(s: SessionState, data: SignupData): SessionState
  {
    s.(pendingSignup := Some(data), authState := CompanyInfoPage)
  }

  /** `handleCompanyInfo`: keep the data, go on to the employee page. */
  function OnCompanyInfo(s: SessionState, data: CompanyData): SessionState
  {
    s.(pendingCompany := Some(data), authState := EmployeeInfoPage)
  }

  /**
   * `handleEmployeeInfo`: with signup data pending, build and save the user,
   * sign in and clear the pending data; without it, do nothing.
   */
  function OnEmployeeInfo(s: SessionState, newEmployees: seq<Employee>): (r: SessionState)
    ensures s.pendingSignup == None ==> r == s
    ensures s.pendingSignup.Some? ==>
      var d := s.pendingSignup.value;
      var u := User(d.firstName, d.lastName, d.email, s.pendingCompany, Some(newEmployees));
      && r.authState == Authenticated && r.currentUser == Some(u) && r.storedUser == Some(u)
      && r.employees == newEmployees && r.storedEmployees == Some(newEmployees)
      && r.pendingSignup == None && r.pendingCompany == None
  {
    match s.pendingSignup
    case None => s
    case Some(d) =>
      var u := User(d.firstName, d.lastName, d.email, s.pendingCompany, Some(newEmployees));
      SessionState(Authenticated, Some(u), None, None, newEmployees, Some(u), Some(newEmployees))
  }

  /**
   * `handleLogin`: the saved user when its email is the one entered, otherwise a
   * demo user for that email, saved only with "remember me". The password is not checked.
   */
  function OnLogin(s: SessionState, email: string, password: string, rememberMe: bool): (r: SessionState)
    ensures r.authState == Authenticated && r.currentUser.Some? && r.currentUser.value.email == email
    ensures s.storedUser.Some? && s.storedUser.value.email == email ==>
      r.currentUser == s.storedUser && r.storedUser == s.storedUser
    ensures !(s.storedUser.Some? && s.storedUser.value.email == email) ==>
      r.currentUser == Some(DemoUser(email)) &&
      r.storedUser == (if rememberMe then Some(DemoUser(email)) else s.storedUser)
    ensures r.(authState := s.authState, currentUser := s.currentUser, storedUser := s.storedUser) == s
  {
    if s.storedUser.Some? && s.storedUser.value.email == email then
      s.(currentUser := s.storedUser, authState := Authenticated)
    else
      var demo := DemoUser(email);
      s.(storedUser := if rememberMe then Some(demo) else s.storedUser,
         currentUser := Some(demo), authState := Authenticated)
  }

  /** `handleLogout`: forget the saved user and return to the login page. */
  function OnLogout(s: SessionState): (r: SessionState)
    ensures r.authState == LoginPage && r.currentUser == None && r.storedUser == None
    ensures r.(authState := s.authState, currentUser := s.currentUser, storedUser := s.storedUser) == s
  {
    s.(storedUser := None, currentUser := None, authState := LoginPage)
  }

  /** Every handler keeps "authenticated implies a signed-in user". */
  lemma HandlersKeepSignedIn(s: SessionState, d: SignupData, c: CompanyData, e: seq<Employee>,
                             email: string, password: string, rememberMe: bool)
    requires SignedInWhenAuthenticated(s)
    ensures SignedInWhenAuthenticated(Restore(s))
    ensures SignedInWhenAuthenticated(ShowSignup(s)) && SignedInWhenAuthenticated(ShowLogin(s))
    ensures SignedInWhenAuthenticated(OnSignup(s, d)) && SignedInWhenAuthenticated(OnCompanyInfo(s, c))
    ensures SignedInWhenAuthenticated(OnEmployeeInfo(s, e))
    ensures SignedInWhenAuthenticated(OnLogin(s, email, password, rememberMe))
    ensures SignedInWhenAuthenticated(OnLogout(s))
  {
  }

  /**
   * The onboarding sequence login → signup → company → employees ends signed in
   * as the user built from the three forms, saved, with nothing left pending.
   */
  lemma Onboarding(s: SessionState, d: SignupData, c: CompanyData, e: seq<Employee>)
    ensures var r := OnEmployeeInfo(OnCompanyInfo(OnSignup(ShowSignup(s), d), c), e);
      var u := User(d.firstName, d.lastName, d.email, Some(c), Some(e));
      && r.authState == Authenticated && r.currentUser == Some(u) && r.storedUser == Some(u)
      && r.employees == e && r.pendingSignup == None && r.pendingCompany == None
  {
  }

  /**
   * Logging out deletes the saved user, so logging in again with the same email
   * gives the demo user, not the one that signed up.
   */
  lemma LogoutForgetsSignedUpUser(s: SessionState, email: string, password: string, rememberMe: bool)
    ensures OnLogin(OnLogout(s), email, password, rememberMe).currentUser == Some(DemoUser(email))
  {
  }

  /** After a login with "remember me", the next page load signs the same email in again. */
  lemma RememberedLoginRestores(s: SessionState, email: string, password: string, savedEmployees: Option<seq<Employee>>)
    ensures var r := Restore(Initial(OnLogin(s, email, password, true).storedUser, savedEmployees));
      r.authState == Authenticated && r.currentUser.Some? && r.currentUser.value.email == email
  {
  }

  /** The session held by the root component. */
  class AuthSession {
    var authState: AuthState
    var currentUser: Option<User>
    var pendingSignup: Option<SignupData>
    var pendingCompany: Option<CompanyData>
    var employees: seq<Employee>
    var storedUser: Option<User>
    var storedEmployees: Option<seq<Employee>>

    function State(): SessionState
      reads this
    {
      SessionState(authState, currentUser, pendingSignup, pendingCompany, employees, storedUser, storedEmployees)
    }

    /** Creation followed by the mount effect. */
    constructor (saved: Option<User>, savedEmployees: Option<seq<Employee>>)
      ensures State() == Restore(Initial(saved, savedEmployees))
      ensures SignedInWhenAuthenticated(State())
    {
      var s := Restore(Initial(saved, savedEmployees));
      authState, currentUser, pendingSignup, pendingCompany := s.authState, s.currentUser, s.pendingSignup, s.pendingCompany;
      employees, storedUser, storedEmployees := s.employees, s.storedUser, s.storedEmployees;
    }

    method SwitchToSignup()
      modifies this
      ensures State() == ShowSignup(old(State()))
    {
      authState := SignupPage;
    }

    method SwitchToLogin()
      modifies this
      ensures State() == ShowLogin(old(State()))
    {
      authState := LoginPage;
    }

    method HandleSignup(data: SignupData)
      modifies this
      ensures State() == OnSignup(old(State()), data)
    {
      pendingSignup := Some(data);
      authState := CompanyInfoPage;
    }

    method HandleCompanyInfo(data: CompanyData)
      modifies this
      ensures State() == OnCompanyInfo(old(State()), data)
    {
      pendingCompany := Some(data);
      authState := EmployeeInfoPage;
    }

    method HandleEmployeeInfo(newEmployees: seq<Employee>)
      modifies this
      ensures State() == OnEmployeeInfo(old(State()), newEmployees)
    {
      if pendingSignup.Some? {
        var d := pendingSignup.value;
        var u := User(d.firstName, d.lastName, d.email, pendingCompany, Some(newEmployees));
        storedUser := Some(u);
        storedEmployees := Some(newEmployees);
        currentUser := Some(u);
        employees := newEmployees;
        authState := Authenticated;
        pendingSignup := None;
        pendingCompany := None;
      }
    }

    method HandleLogin(email: string, password: string, rememberMe: bool)
      modifies this
      ensures State() == OnLogin(old(State()), email, password, rememberMe)
    {
      if storedUser.Some? && storedUser.value.email == email {
        currentUser := storedUser;
        authState := Authenticated;
        return;
      }
      var demo := DemoUser(email);
      if rememberMe {
        storedUser := Some(demo);
      }
      currentUser := Some(demo);
      authState := Authenticated;
    }

    method HandleLogout()
      modifies this
      ensures State() == OnLogout(old(State()))
    {
      storedUser := None;
      currentUser := None;
      authState := LoginPage;
    }
  }
}
