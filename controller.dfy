/** The view-state controller held by the top-level `App` component
    (client/src/App.js): which screen is shown, the session flag, the
    in-memory employee list and the transient notification. */
module Controller {
  import opened Records
  import EmployeeList

  const SignInView: string := "signIn"
  const EmployeesView: string := "employees"
  const RegistrationView: string := "registration"
  const ProfileView: string := "profile"

  /** The value `localStorage` holds under its `isLoggedIn` key after a login. */
  const LoggedInValue: string := "true"

  const AddedNotice: string := "Successfully added"
  const AddFailedNotice: string := "Failed to add employee"
  const DeletedNotice: string := "Successfully deleted"
  const DeleteFailedNotice: string := "Failed to delete employee"
  const UpdatedNotice: string := "Successfully updated"
  const UpdateFailedNotice: string := "Failed to update employee"

  /** The screen `renderContent` draws. */
  datatype Screen = SignInScreen | EmployeesScreen | RegistrationScreen | ProfileScreen

  /** `renderContent`: any view name it does not know draws the sign-in screen. */
  function RenderContent(view: string): (s: Screen)
    ensures s == EmployeesScreen <==> view == EmployeesView
    ensures s == RegistrationScreen <==> view == RegistrationView
    ensures s == ProfileScreen <==> view == ProfileView
    ensures s == SignInScreen <==> view !in {EmployeesView, RegistrationView, ProfileView}
  {
    match view
    case "signIn" => SignInScreen
    case "employees" => EmployeesScreen
    case "registration" => RegistrationScreen
    case "profile" => ProfileScreen
    case _ => SignInScreen
  }

  /** Whether the persisted flag reads as logged in (`getItem('isLoggedIn') === 'true'`). */
  predicate LoggedIn(stored: Option<string>)
    ensures LoggedIn(stored) ==> stored.Some? && stored.value == LoggedInValue
    ensures stored == None ==> !LoggedIn(stored)
    ensures stored.Some? && stored.value != LoggedInValue ==> !LoggedIn(stored)
    ensures stored == Some(LoggedInValue) ==> LoggedIn(stored)
  {
    stored == Some(LoggedInValue)
  }

  /** The view the mount effect chooses from the persisted flag. */
  function InitialView(stored: Option<string>): (view: string)
    ensures view == EmployeesView <==> stored == Some(LoggedInValue)
    ensures view == SignInView <==> stored != Some(LoggedInValue)
  {
    if LoggedIn(stored) then EmployeesView else SignInView
  }

  /** A callback handed to `setTimeout`. Every one is scheduled with the same
      2000 ms delay, so they fire in the order they were scheduled. */
  datatype Timer =
    | ClearNotification   // `setNotification('')` after a mutation
    | FinishLogin         // the body of `handleLogin`'s timeout
    | FinishSignOut       // the body of `handleSignOut`'s timeout
    | FinishNavigation    // `setIsLoading(false)` after `handleNavigate`

  class App {
    var currentView: string
    var isLoggedIn: bool
    var employees: seq<Record>
    var selectedEmployee: Option<Record>
    var isLoading: bool
    var notification: string
    /** `localStorage.getItem('isLoggedIn')`, `None` when the key is absent. */
    var storedLogin: Option<string>
    /** Scheduled timeouts that have not fired yet, in firing order. */
    var timers: seq<Timer>

    /** The session flag in memory always agrees with the persisted one, and
        a notification on screen always has a pending timer that clears it. */
    ghost predicate Valid()
      reads this
    {
      && isLoggedIn == LoggedIn(storedLogin)
      && (notification != "" ==> ClearNotification in timers)
    }

    /** The initial `useState` values followed by the mount effect that reads
        the persisted flag; the employee fetch is still outstanding. */
    constructor (stored: Option<string>)
      ensures Valid()
      ensures isLoggedIn == (stored == Some(LoggedInValue))
      ensures currentView == InitialView(stored)
      ensures employees == [] && selectedEmployee == None
      ensures isLoading && notification == ""
      ensures storedLogin == stored && timers == []
    {
      currentView := SignInView;
      isLoggedIn := false;
      employees := [];
      selectedEmployee := None;
      isLoading := true;
      notification := "";
      storedLogin := stored;
      timers := [];
      var loggedIn := LoggedIn(stored);
      isLoggedIn := loggedIn;
      currentView := if loggedIn then EmployeesView else SignInView;
    }

    /** The mount-time fetch completes: `response` is the listed employees,
        or `None` when the request failed. A failure is not shown to the user. */
    method ReceiveEmployees(response: Option<seq<Record>>)
      requires Valid()
      modifies this
      ensures Valid()
      ensures employees == (if response.Some? then response.value else old(employees))
      ensures !isLoading
      ensures notification == old(notification) && timers == old(timers)
      ensures currentView == old(currentView) && isLoggedIn == old(isLoggedIn)
      ensures selectedEmployee == old(selectedEmployee) && storedLogin == old(storedLogin)
    {
      if response.Some? {
        employees := response.value;
        isLoading := false;
      } else {
        isLoading := false;
      }
    }

    /** `handleAddEmployee(draft)`: `response` is the id the gateway assigned,
        or `None` when the POST failed. */
    method AddEmployee(draft: Record, response: Option<string>)
      requires Valid()
      modifies this
      ensures Valid()
      ensures response.Some? ==> employees == EmployeeList.Append(old(employees), draft, response.value)
      ensures response.Some? ==> notification == AddedNotice
      ensures response.None? ==> employees == old(employees) && notification == AddFailedNotice
      ensures !isLoading && timers == old(timers) + [ClearNotification]
      ensures currentView == old(currentView) && isLoggedIn == old(isLoggedIn)
      ensures selectedEmployee == old(selectedEmployee) && storedLogin == old(storedLogin)
    {
      isLoading := true;
      if response.Some? {
        employees := EmployeeList.Append(employees, draft, response.value);
        notification := AddedNotice;
      } else {
        notification := AddFailedNotice;
      }
      isLoading := false;
      timers := timers + [ClearNotification];
    }

    /** `handleDeleteEmployee(id)`: `ok` says whether the DELETE succeeded. */
    method DeleteEmployee(id: string, ok: bool)
      requires Valid()
      modifies this
      ensures Valid()
      ensures ok ==> employees == EmployeeList.Remove(old(employees), id) && notification == DeletedNotice
      ensures !ok ==> employees == old(employees) && notification == DeleteFailedNotice
      ensures !isLoading && timers == old(timers) + [ClearNotification]
      ensures currentView == old(currentView) && isLoggedIn == old(isLoggedIn)
      ensures selectedEmployee == old(selectedEmployee) && storedLogin == old(storedLogin)
    {
      isLoading := true;
      if ok {
        employees := EmployeeList.Remove(employees, id);
        notification := DeletedNotice;
      } else {
        notification := DeleteFailedNotice;
      }
      isLoading := false;
      timers := timers + [ClearNotification];
    }

    /** `handleUpdateEmployee(updated)`: `ok` says whether the PUT succeeded. */
    method UpdateEmployee(updated: Record, ok: bool)
      requires Valid()
      modifies this
      ensures Valid()
      ensures ok ==> employees == EmployeeList.Replace(old(employees), updated) && notification == UpdatedNotice
      ensures !ok ==> employees == old(employees) && notification == UpdateFailedNotice
      ensures !isLoading && timers == old(timers) + [ClearNotification]
      ensures currentView == old(currentView) && isLoggedIn == old(isLoggedIn)
      ensures selectedEmployee == old(selectedEmployee) && storedLogin == old(storedLogin)
    {
      isLoading := true;
      if ok {
        employees := EmployeeList.Replace(employees, updated);
        notification := UpdatedNotice;
      } else {
        notification := UpdateFailedNotice;
      }
      isLoading := false;
      timers := timers + [ClearNotification];
    }

    /** `handleLogin`: start loading and schedule the simulated sign-in. */
    method Login()
      requires Valid()
      modifies this
      ensures Valid()
      ensures isLoading && timers == old(timers) + [FinishLogin]
      ensures currentView == old(currentView) && isLoggedIn == old(isLoggedIn)
      ensures storedLogin == old(storedLogin) && employees == old(employees)
      ensures selectedEmployee == old(selectedEmployee) && notification == old(notification)
    {
      isLoading := true;
      timers := timers + [FinishLogin];
    }

    /** `handleSignOut`: start loading and schedule the simulated sign-out. */
    method SignOut()
      requires Valid()
      modifies this
      ensures Valid()
      ensures isLoading && timers == old(timers) + [FinishSignOut]
      ensures currentView == old(currentView) && isLoggedIn == old(isLoggedIn)
      ensures storedLogin == old(storedLogin) && employees == old(employees)
      ensures selectedEmployee == old(selectedEmployee) && notification == old(notification)
    {
      isLoading := true;
      timers := timers + [FinishSignOut];
    }

    /** `handleNavigate(target)`: the view changes at once; loading ends when the timer fires. */
    method Navigate(target: string)
      requires Valid()
      modifies this
      ensures Valid()
      ensures currentView == target && isLoading
      ensures timers == old(timers) + [FinishNavigation]
      ensures isLoggedIn == old(isLoggedIn) && storedLogin == old(storedLogin)
      ensures employees == old(employees) && selectedEmployee == old(selectedEmployee)
      ensures notification == old(notification)
    {
      isLoading := true;
      currentView := target;
      timers := timers + [FinishNavigation];
    }

    /** `onViewEmployee={setSelectedEmployee}` on the employee list. */
    method ViewEmployee(employee: Record)
      requires Valid()
      modifies this
      ensures Valid()
      ensures selectedEmployee == Some(employee)
      ensures currentView == old(currentView) && isLoggedIn == old(isLoggedIn)
      ensures storedLogin == old(storedLogin) && employees == old(employees)
      ensures isLoading == old(isLoading) && notification == old(notification)
      ensures timers == old(timers)
    {
      selectedEmployee := Some(employee);
    }

    /** `setCurrentView` as handed to the registration screen: no loading delay. */
    method SetCurrentView(view: string)
      requires Valid()
      modifies this
      ensures Valid()
      ensures currentView == view
      ensures isLoggedIn == old(isLoggedIn) && storedLogin == old(storedLogin)
      ensures employees == old(employees) && selectedEmployee == old(selectedEmployee)
      ensures isLoading == old(isLoading) && notification == old(notification)
      ensures timers == old(timers)
    {
      currentView := view;
    }

    /** The earliest scheduled timeout fires. */
    method FireTimer()
      requires Valid() && timers != []
      modifies this
      ensures Valid()
      ensures timers == old(timers)[1..]
      ensures employees == old(employees) && selectedEmployee == old(selectedEmployee)
      ensures old(timers)[0] == ClearNotification ==>
        notification == "" && isLoading == old(isLoading) &&
        currentView == old(currentView) && isLoggedIn == old(isLoggedIn) && storedLogin == old(storedLogin)
      ensures old(timers)[0] == FinishLogin ==>
        storedLogin == Some(LoggedInValue) && isLoggedIn && currentView == EmployeesView &&
        !isLoading && notification == old(notification)
      ensures old(timers)[0] == FinishSignOut ==>
        storedLogin == None && !isLoggedIn && currentView == SignInView &&
        !isLoading && notification == old(notification)
      ensures old(timers)[0] == FinishNavigation ==>
        !isLoading && notification == old(notification) &&
        currentView == old(currentView) && isLoggedIn == old(isLoggedIn) && storedLogin == old(storedLogin)
    {
      var t := timers[0];
      timers := timers[1..];
      match t
      case ClearNotification =>
        notification := "";
      case FinishLogin =>
        storedLogin := Some(LoggedInValue);
        isLoggedIn := true;
        currentView := EmployeesView;
        isLoading := false;
      case FinishSignOut =>
        storedLogin := None;
        isLoggedIn := false;
        currentView := SignInView;
        isLoading := false;
      case FinishNavigation =>
        isLoading := false;
    }

    /** The screen currently drawn. */
    function CurrentScreen(): (s: Screen)
      reads this
      ensures s == EmployeesScreen <==> currentView == EmployeesView
      ensures s == RegistrationScreen <==> currentView == RegistrationView
      ensures s == ProfileScreen <==> currentView == ProfileView
      ensures s == SignInScreen <==> currentView !in {EmployeesView, RegistrationView, ProfileView}
    {
      RenderContent(currentView)
    }
  }
}
