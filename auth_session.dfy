/**
 * The session held by the authentication provider: the token, the user, the
 * guest flag and the loading flag, and the three keys it keeps in the
 * device's key-value store. Server answers and store reads are parameters.
 */
module AuthSession {
  import opened Wrappers
  import opened JsStrings
  import RegisterForm

  datatype User = User(id: string, email: string, firstName: string, lastName: string)

  /** The keys `userToken`, `userData` and `guestMode` of the device store (`None`: key absent). */
  datatype Stored = Stored(token: Option<string>, userData: Option<User>, guestMode: Option<string>)

  /** What the server answered to a login or register request. */
  datatype AuthResponse =
    | Accepted(token: string, user: User)
    | Rejected(message: Option<string>)   // `error.response?.data?.message`, if any

  /** The `{ success, message }` object returned to the screen. */
  datatype AuthResult = AuthResult(success: bool, message: Option<string>)

  /** A snapshot of the provider's observable state. */
  datatype Session = Session(isLoading: bool, userToken: Option<string>, user: Option<User>, isGuest: bool)
  {
    /** `isLoggedIn`: `!!userToken`. */
    predicate IsLoggedIn() {
      Truthy(userToken)
    }

    /** `checkAccess(requiredAuth = true)`; `None` is the argument left out. */
    predicate CheckAccess(requiredAuth: Option<bool>) {
      if requiredAuth == Some(false) then true else IsLoggedIn()
    }
  }

  /** Everyone may use a feature that needs no sign-in; otherwise only a logged-in user may. */
  lemma CheckAccessMeaning(s: Session, requiredAuth: Option<bool>)
    ensures requiredAuth == Some(false) ==> s.CheckAccess(requiredAuth)
    ensures requiredAuth != Some(false) ==> (s.CheckAccess(requiredAuth) <==> s.userToken.Some? && s.userToken.value != "")
  {
  }

  /** The failure message: the server's when it gave a non-empty one, the fallback otherwise. */
  function FailureMessage(message: Option<string>, fallback: string): (r: string)
    ensures message.Some? && message.value != "" ==> r == message.value
    ensures !(message.Some? && message.value != "") ==> r == fallback
  {
    if Truthy(message) then message.value else fallback
  }

  const LoginFailed := "Login failed"
  const RegistrationFailed := "Registration failed"

  class AuthProvider {
    var isLoading: bool
    var userToken: Option<string>
    var user: Option<User>
    var isGuest: bool
    /** The device store as this provider last left it. */
    var stored: Stored

    /** Token and user are always set and cleared together. */
    predicate Valid()
      reads this
    {
      userToken.Some? <==> user.Some?
    }

    function State(): Session
      reads this
    {
      Session(isLoading, userToken, user, isGuest)
    }

    /** Mounting the provider: loading, signed out, not a guest; the store holds what an earlier run left. */
    constructor (device: Stored)
      ensures Valid()
      ensures State() == Session(true, None, None, false) && stored == device
    {
      isLoading := true;
      userToken := None;
      user := None;
      isGuest := false;
      stored := device;
    }

    /**
     * `loadToken`: a truthy stored token together with stored user data
     * restores the login and leaves the guest flag alone; otherwise a stored
     * `guestMode` of `'true'` restores guest mode. A failed read changes
     * nothing. Loading ends in every case.
     */
    method LoadToken(readOk: bool)
      requires Valid()
      modifies this
      ensures Valid() && stored == old(stored) && !isLoading
      ensures readOk && Truthy(stored.token) && stored.userData.Some? ==>
                userToken == stored.token && user == stored.userData && isGuest == old(isGuest)
      ensures readOk && !(Truthy(stored.token) && stored.userData.Some?) && stored.guestMode == Some("true") ==>
                userToken == old(userToken) && user == old(user) && isGuest
      ensures !(readOk && ((Truthy(stored.token) && stored.userData.Some?) || stored.guestMode == Some("true"))) ==>
                userToken == old(userToken) && user == old(user) && isGuest == old(isGuest)
    {
      if readOk {
        if Truthy(stored.token) && stored.userData.Some? {
          userToken := stored.token;
          user := stored.userData;
        } else if stored.guestMode == Some("true") {
          isGuest := true;
        }
      }
      isLoading := false;
    }

    /**
     * The shared body of `login` and `register`: an accepted answer stores
     * and sets the token and user, removes guest mode and clears the guest
     * flag; a rejected one changes neither and reports the server's message
     * or `fallback`. Loading ends in both cases.
     */
    method Authenticate(response: AuthResponse, fallback: string) returns (result: AuthResult)
      requires Valid()
      modifies this
      ensures Valid() && !isLoading
      ensures result.success <==> response.Accepted?
      ensures response.Accepted? ==>
                && userToken == Some(response.token) && user == Some(response.user) && !isGuest
                && stored == Stored(Some(response.token), Some(response.user), None)
                && result.message == None
      ensures response.Rejected? ==>
                && userToken == old(userToken) && user == old(user) && isGuest == old(isGuest)
                && stored == old(stored)
                && result.message == Some(FailureMessage(response.message, fallback))
    {
      isLoading := true;
      match response {
        case Accepted(token, u) =>
          stored := Stored(Some(token), Some(u), None);
          userToken := Some(token);
          user := Some(u);
          isGuest := false;
          result := AuthResult(true, None);
        case Rejected(message) =>
          result := AuthResult(false, Some(FailureMessage(message, fallback)));
      }
      isLoading := false;
    }

    /** `login(email, password)`; the credentials go to the server, whose answer is `response`. */
    method Login(email: string, password: string, response: AuthResponse) returns (result: AuthResult)
      requires Valid()
      modifies this
      ensures Valid() && !isLoading
      ensures result.success <==> response.Accepted?
      ensures response.Accepted? ==>
                && userToken == Some(response.token) && user == Some(response.user) && !isGuest
                && stored == Stored(Some(response.token), Some(response.user), None)
                && result.message == None
      ensures response.Rejected? ==>
                && userToken == old(userToken) && user == old(user) && isGuest == old(isGuest)
                && stored == old(stored)
                && result.message == Some(FailureMessage(response.message, LoginFailed))
    {
      result := Authenticate(response, LoginFailed);
    }

    /** `register(userData)`; the data goes to the server, whose answer is `response`. */
    method Register(data: RegisterForm.RegisterData, response: AuthResponse) returns (result: AuthResult)
      requires Valid()
      modifies this
      ensures Valid() && !isLoading
      ensures result.success <==> response.Accepted?
      ensures response.Accepted? ==>
                && userToken == Some(response.token) && user == Some(response.user) && !isGuest
                && stored == Stored(Some(response.token), Some(response.user), None)
                && result.message == None
      ensures response.Rejected? ==>
                && userToken == old(userToken) && user == old(user) && isGuest == old(isGuest)
                && stored == old(stored)
                && result.message == Some(FailureMessage(response.message, RegistrationFailed))
    {
      result := Authenticate(response, RegistrationFailed);
    }

    /** `logout`: all three keys are removed and the token, user and guest flag cleared. */
    method Logout()
      requires Valid()
      modifies this
      ensures Valid() && isLoading == old(isLoading)
      ensures userToken == None && user == None && !isGuest
      ensures stored == Stored(None, None, None)
    {
      stored := Stored(None, None, None);
      userToken := None;
      user := None;
      isGuest := false;
    }

    /** `continueAsGuest`: the guest flag is set and remembered; token and user are left alone. */
    method ContinueAsGuest()
      requires Valid()
      modifies this
      ensures Valid() && isLoading == old(isLoading)
      ensures isGuest && userToken == old(userToken) && user == old(user)
      ensures stored == old(stored).(guestMode := Some("true"))
    {
      isGuest := true;
      stored := stored.(guestMode := Some("true"));
    }
  }

  /** A login with a non-empty token survives a restart of the app: the next start-up restores it. */
  method RestartAfterLogin(device: Stored, email: string, password: string, token: string, u: User)
    returns (before: Session, after: Session)
    requires token != ""
    ensures before.IsLoggedIn() && before.user == Some(u) && !before.isGuest
    ensures after == before
  {
    var first := new AuthProvider(device);
    first.LoadToken(true);
    var _ := first.Login(email, password, Accepted(token, u));
    before := first.State();
    var second := new AuthProvider(first.stored);
    second.LoadToken(true);
    after := second.State();
  }

  /** After a logout, the next start-up is neither logged in nor a guest. */
  method RestartAfterLogout(device: Stored) returns (after: Session)
    ensures !after.IsLoggedIn() && !after.isGuest && !after.isLoading
    ensures !after.CheckAccess(None) && after.CheckAccess(Some(false))
  {
    var first := new AuthProvider(device);
    first.LoadToken(true);
    first.Logout();
    var second := new AuthProvider(first.stored);
    second.LoadToken(true);
    after := second.State();
  }

  /** Guest mode chosen while signed out is restored on the next start-up, still signed out. */
  method RestartAsGuest(device: Stored) returns (after: Session)
    requires !(Truthy(device.token) && device.userData.Some?)
    ensures after.isGuest && !after.IsLoggedIn() && !after.isLoading
  {
    var first := new AuthProvider(device);
    first.LoadToken(true);
    first.ContinueAsGuest();
    var second := new AuthProvider(first.stored);
    second.LoadToken(true);
    after := second.State();
  }

  /**
   * A rejected login reports a non-empty message and leaves the session
   * exactly as start-up restored it, token and user still set together.
   */
  method RejectedLoginKeepsSession(device: Stored, email: string, password: string, message: Option<string>)
    returns (restored: Session, after: Session, result: AuthResult)
    ensures !result.success && result.message.Some? && result.message.value != ""
    ensures after == restored && !after.isLoading
    ensures restored.IsLoggedIn() <==> Truthy(device.token) && device.userData.Some?
    ensures after.userToken.Some? <==> after.user.Some?
  {
    var p := new AuthProvider(device);
    p.LoadToken(true);
    restored := p.State();
    result := p.Login(email, password, Rejected(message));
    after := p.State();
  }
}
