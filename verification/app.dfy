/** The application shell (App.tsx): the seed state, rehydration from
    storage, log-in, registration, log-out, role switching and the choice
    of dashboard. Lookups read the state the form was rendered with
    (`snapshot`); updates apply to the current state (`live`). Storage,
    `JSON.parse`, geolocation and the random ids are inputs. */
module App {
  import opened Wrappers
  import opened Collections
  import opened Domain
  import AdminView

  // ---------------------------------------------------------------------------
  // Seed and rehydration

  const SeedAdminPassword: string := "1989"

  /** `initialState`: one approved restaurant with one item, one approved
      rider, no customers and no orders, the customer role selected. */
  const InitialState: GlobalState := GlobalState(
    [Restaurant("r1", "The Burger Joint", "owner1", Approved,
                [MenuItem("i1", "Classic Burger", 1200.0, "Juicy beef patty", "Mains", None)],
                None, Some("burger"), Some("123"), Some(AvatarBase + "r1"), Some(DefaultLocation),
                Some("0771234567"), Some("123 Galle Road, Colombo"), Some(10.0))],
    [],
    [Rider("rider1", "Flash Rider", Approved, None, Some("rider"), Some("123"), None, Some(AvatarBase + "rider1"), None)],
    [],
    CustomerRole,
    None, None, None,
    Some(SeedAdminPassword),
    false)

  /** Nobody is logged in. */
  predicate LoggedOut(s: GlobalState)
  {
    s.loggedInRestaurantId.None? && s.loggedInRiderId.None? && s.loggedInCustomerId.None? && !s.isAdminLoggedIn
  }

  /** The lazy initial state: the stored state when there is one and it
      parses, with every log-in cleared and the admin password defaulted to
      the seed one when missing or empty; the seed state otherwise. */
  function Rehydrate(saved: Option<string>, parse: string -> Option<GlobalState>): (r: GlobalState)
    ensures LoggedOut(r)
    ensures !Truthy(saved) || parse(saved.value).None? ==> r == InitialState
    ensures Truthy(saved) && parse(saved.value).Some? ==>
      var p := parse(saved.value).value;
      && r.restaurants == p.restaurants && r.customers == p.customers
      && r.riders == p.riders && r.orders == p.orders
      && r.currentUserRole == p.currentUserRole
      && r.adminPassword == Some(OrElse(p.adminPassword, SeedAdminPassword))
  {
    if !Truthy(saved) then InitialState
    else
      match parse(saved.value)
      case None => InitialState
      case Some(p) =>
        p.(loggedInRestaurantId := None, loggedInRiderId := None, loggedInCustomerId := None,
           isAdminLoggedIn := false, adminPassword := Some(OrElse(p.adminPassword, SeedAdminPassword)))
  }

  // ---------------------------------------------------------------------------
  // Log-in, registration, log-out

  datatype AuthError = InvalidAdminCredentials | InvalidCredentials | UsernameTaken

  /** The outcome of a form: the next state, and the error shown if any. */
  datatype Outcome = Outcome(state: GlobalState, error: Option<AuthError>)

  const AdminUser: string := "admin"

  function RestaurantLogin(username: string, password: string): Restaurant -> bool
  {
    (r: Restaurant) => r.username == Some(username) && r.password == Some(password)
  }

  function RiderLogin(username: string, password: string): Rider -> bool
  {
    (r: Rider) => r.username == Some(username) && r.password == Some(password)
  }

  function CustomerLogin(username: string, password: string): Customer -> bool
  {
    (c: Customer) => c.username == username && c.password == password
  }

  /** `handleLogin` for the selected role: the admin needs the user name
      "admin" and the current admin password; the others need the first
      account whose user name and password both match, whose id is then
      recorded. A failed log-in changes nothing. */
  function Login(snapshot: GlobalState, live: GlobalState, username: string, password: string): (r: Outcome)
    ensures r.error.Some? ==> r.state == live
    ensures r.error.None? ==> r.state.(loggedInRestaurantId := live.loggedInRestaurantId,
                                       loggedInRiderId := live.loggedInRiderId,
                                       loggedInCustomerId := live.loggedInCustomerId,
                                       isAdminLoggedIn := live.isAdminLoggedIn) == live
    ensures snapshot.currentUserRole == AdminRole ==>
      if username == AdminUser && snapshot.adminPassword == Some(password)
      then r == Outcome(live.(isAdminLoggedIn := true), None)
      else r == Outcome(live, Some(InvalidAdminCredentials))
    ensures snapshot.currentUserRole == RestaurantRole ==>
      && (r.error.None? <==> exists i :: 0 <= i < |snapshot.restaurants| && RestaurantLogin(username, password)(snapshot.restaurants[i]))
      && (r.error.None? ==> r.state == live.(loggedInRestaurantId := Some(Find(snapshot.restaurants, RestaurantLogin(username, password)).value.id)))
    ensures snapshot.currentUserRole == RiderRole ==>
      && (r.error.None? <==> exists i :: 0 <= i < |snapshot.riders| && RiderLogin(username, password)(snapshot.riders[i]))
      && (r.error.None? ==> r.state == live.(loggedInRiderId := Some(Find(snapshot.riders, RiderLogin(username, password)).value.id)))
    ensures snapshot.currentUserRole == CustomerRole ==>
      && (r.error.None? <==> exists i :: 0 <= i < |snapshot.customers| && CustomerLogin(username, password)(snapshot.customers[i]))
      && (r.error.None? ==> r.state == live.(loggedInCustomerId := Some(Find(snapshot.customers, CustomerLogin(username, password)).value.id)))
    ensures r.error.Some? ==> r.error == Some(if snapshot.currentUserRole == AdminRole then InvalidAdminCredentials else InvalidCredentials)
  {
    match snapshot.currentUserRole
    case AdminRole =>
      if username == AdminUser && snapshot.adminPassword == Some(password)
      then Outcome(live.(isAdminLoggedIn := true), None)
      else Outcome(live, Some(InvalidAdminCredentials))
    case RestaurantRole =>
      (match Find(snapshot.restaurants, RestaurantLogin(username, password))
       case Some(res) => Outcome(live.(loggedInRestaurantId := Some(res.id)), None)
       case None => Outcome(live, Some(InvalidCredentials)))
    case RiderRole =>
      (match Find(snapshot.riders, RiderLogin(username, password))
       case Some(rider) => Outcome(live.(loggedInRiderId := Some(rider.id)), None)
       case None => Outcome(live, Some(InvalidCredentials)))
    case CustomerRole =>
      (match Find(snapshot.customers, CustomerLogin(username, password))
       case Some(cust) => Outcome(live.(loggedInCustomerId := Some(cust.id)), None)
       case None => Outcome(live, Some(InvalidCredentials)))
  }

  /** The registration form. */
  datatype RegForm = RegForm(name: string, mobile: string, whatsapp: string, address: string,
                             username: string, password: string)

  function UsernameIs(username: string): Customer -> bool
  {
    (c: Customer) => c.username == username
  }

  /** `handleRegister`: a user name already used by a customer is refused;
      otherwise a customer with the form's fields, a generated avatar and the
      device location (the default one when unavailable) is appended and
      logged in. */
  function Register(snapshot: GlobalState, live: GlobalState, form: RegForm, id: string, geo: Option<LatLng>): (r: Outcome)
    ensures r.error.Some? <==> exists i :: 0 <= i < |snapshot.customers| && snapshot.customers[i].username == form.username
    ensures r.error.Some? ==> r == Outcome(live, Some(UsernameTaken))
    ensures r.error.None? ==>
      && r.state == live.(customers := r.state.customers, loggedInCustomerId := Some(id))
      && |r.state.customers| == |live.customers| + 1
      && r.state.customers[..|live.customers|] == live.customers
      && r.state.customers[|live.customers|] ==
           Customer(id, form.name, form.mobile, form.whatsapp, form.address, form.username, form.password,
                    Some(AvatarBase + form.username), Some(geo.GetOr(DefaultLocation)))
  {
    if Find(snapshot.customers, UsernameIs(form.username)).Some? then
      assert exists i :: 0 <= i < |snapshot.customers| && UsernameIs(form.username)(snapshot.customers[i]);
      Outcome(live, Some(UsernameTaken))
    else
      var c := Customer(id, form.name, form.mobile, form.whatsapp, form.address, form.username, form.password,
                        Some(AvatarBase + form.username), Some(geo.GetOr(DefaultLocation)));
      assert forall i :: 0 <= i < |snapshot.customers| ==> !UsernameIs(form.username)(snapshot.customers[i]);
      Outcome(live.(customers := live.customers + [c], loggedInCustomerId := Some(id)), None)
  }

  /** `handleLogout`: every log-in is cleared and nothing else changes. */
  function Logout(s: GlobalState): (r: GlobalState)
    ensures LoggedOut(r)
    ensures r.restaurants == s.restaurants && r.customers == s.customers && r.riders == s.riders
    ensures r.orders == s.orders && r.currentUserRole == s.currentUserRole && r.adminPassword == s.adminPassword
  {
    s.(loggedInRestaurantId := None, loggedInRiderId := None, loggedInCustomerId := None, isAdminLoggedIn := false)
  }

  /** The role selector, and the logo (which selects the customer role). */
  function SelectRole(s: GlobalState, role: UserRole): (r: GlobalState)
    ensures r.currentUserRole == role
    ensures r.(currentUserRole := s.currentUserRole) == s
  {
    s.(currentUserRole := role)
  }

  // ---------------------------------------------------------------------------
  // Which dashboard

  datatype View = AuthForm | AdminDashboard | RestaurantDashboard | RiderDashboard | CustomerDashboard

  /** `renderDashboard`: the dashboard of the selected role when that role is
      logged in (a truthy id, or the admin flag), the log-in form otherwise. */
  predicate SignedIn(s: GlobalState)
  {
    match s.currentUserRole
    case AdminRole => s.isAdminLoggedIn
    case RestaurantRole => Truthy(s.loggedInRestaurantId)
    case RiderRole => Truthy(s.loggedInRiderId)
    case CustomerRole => Truthy(s.loggedInCustomerId)
  }

  function RenderDashboard(s: GlobalState): (v: View)
    ensures v == AuthForm <==> !SignedIn(s)
    ensures v != AuthForm ==>
      match s.currentUserRole
      case AdminRole => v == AdminDashboard && s.isAdminLoggedIn
      case RestaurantRole => v == RestaurantDashboard && Truthy(s.loggedInRestaurantId)
      case RiderRole => v == RiderDashboard && Truthy(s.loggedInRiderId)
      case CustomerRole => v == CustomerDashboard && Truthy(s.loggedInCustomerId)
  {
    match s.currentUserRole
    case AdminRole => if s.isAdminLoggedIn then AdminDashboard else AuthForm
    case RestaurantRole => if Truthy(s.loggedInRestaurantId) then RestaurantDashboard else AuthForm
    case RiderRole => if Truthy(s.loggedInRiderId) then RiderDashboard else AuthForm
    case CustomerRole => if Truthy(s.loggedInCustomerId) then CustomerDashboard else AuthForm
  }

  // ---------------------------------------------------------------------------
  // Properties

  /** After logging out, whatever role is selected, the log-in form shows. */
  lemma LogoutShowsAuthForm(s: GlobalState, role: UserRole)
    ensures RenderDashboard(SelectRole(Logout(s), role)) == AuthForm
  {
  }

  /** A successful log-in under an account with a non-empty id opens that
      role's dashboard; a failed one leaves the view as it was. */
  lemma LoginOpensDashboard(s: GlobalState, username: string, password: string)
    requires forall i :: 0 <= i < |s.restaurants| ==> s.restaurants[i].id != ""
    requires forall i :: 0 <= i < |s.riders| ==> s.riders[i].id != ""
    requires forall i :: 0 <= i < |s.customers| ==> s.customers[i].id != ""
    ensures var r := Login(s, s, username, password);
      (r.error.None? ==> RenderDashboard(r.state) != AuthForm)
      && (r.error.Some? ==> RenderDashboard(r.state) == RenderDashboard(s))
  {
  }

  /** A stored state comes back as the same data with nobody logged in. */
  lemma RehydrateIsLogout(text: string, parse: string -> Option<GlobalState>, p: GlobalState)
    requires text != "" && parse(text) == Some(p) && Truthy(p.adminPassword)
    ensures Rehydrate(Some(text), parse) == Logout(p)
  {
  }

  /** Once the admin password has been changed to a non-empty one, logging
      in as admin with it succeeds, and with the old one (if different)
      fails. */
  lemma NewAdminPasswordLogsIn(s: GlobalState, pass: string, previous: string)
    requires s.currentUserRole == AdminRole && pass != "" && previous != pass
    ensures var t := AdminView.AdminPassUpdate(s, pass);
      && Login(t, t, AdminUser, pass) == Outcome(t.(isAdminLoggedIn := true), None)
      && Login(t, t, AdminUser, previous).error == Some(InvalidAdminCredentials)
  {
  }

  /** A user name can be registered at most once: registering the same form
      again right after fails. */
  lemma RegisterTwiceFails(s: GlobalState, form: RegForm, id1: string, id2: string, geo: Option<LatLng>)
    requires Register(s, s, form, id1, geo).error.None?
    ensures var t := Register(s, s, form, id1, geo).state;
      Register(t, t, form, id2, geo) == Outcome(t, Some(UsernameTaken))
  {
    var t := Register(s, s, form, id1, geo).state;
    assert t.customers[|s.customers|].username == form.username;
  }
}
