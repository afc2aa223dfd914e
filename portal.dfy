/** The application state of the portal and the event handlers that change
    it: navigation between the five screens, the three sign-up forms, the
    sign-in modal and the session it creates. Each handler is one atomic
    update that reads the state as it was before the event. */
module Portal {
  import opened Optional
  import opened Text
  import opened Validation

  /** `currentPage`. */
  datatype Page = Welcome | UserSignup | DoctorSignup | AdminSignup | Dashboard

  /** `currentUser` when someone is signed in: a role, a display name and an
      email. The role is text: the sign-in path takes it from its input. */
  datatype Session = Session(role: string, name: string, email: string)

  /** The argument of the sign-in submit handler: its `email`, `password`
      and `role` properties, each the empty string when missing. */
  datatype Credentials = Credentials(email: string, password: string, role: string)

  /** The name the dashboard greets: the session's name, or the placeholder
      "User" in the display language. */
  datatype Greeting = Named(name: string) | Placeholder(arabic: bool)

  /** The informational notice the forgot-password link raises. */
  datatype Notice = PasswordResetDisabled(arabic: bool)

  /** The sign-up page of a role. */
  function SignupPage(r: Role): Page {
    match r
    case User => UserSignup
    case Doctor => DoctorSignup
    case Admin => AdminSignup
  }

  /** The role a sign-up page registers; other pages have none. */
  function PageRole(p: Page): Option<Role> {
    match p
    case UserSignup => Some(User)
    case DoctorSignup => Some(Doctor)
    case AdminSignup => Some(Admin)
    case _ => None
  }

  /** `map[role] || 'userSignup'` with `map = { user: 'userSignup', doctor:
      'doctorSignup', admin: 'adminSignup' }`: always a sign-up page, the
      doctor's or the administrator's exactly for those role names and the
      user's for every other text. */
  function SignupPageFor(role: string): (p: Page)
    ensures PageRole(p).Some?
    ensures PageRole(p) == Some(Doctor) <==> role == "doctor"
    ensures PageRole(p) == Some(Admin) <==> role == "admin"
  {
    if role == "user" then UserSignup
    else if role == "doctor" then DoctorSignup
    else if role == "admin" then AdminSignup
    else UserSignup
  }

  /** The redirect and the page a role's sign-up button opens agree: the
      page chosen for a role's name registers that role. */
  lemma SignupPageForRoleName(r: Role)
    ensures SignupPageFor(RoleName(r)) == SignupPage(r)
    ensures PageRole(SignupPage(r)) == Some(r)
  {
  }

  /** `e && e.email ? e : {}`: the properties are used only when an email
      is present; otherwise every property is missing. */
  function SubmittedData(c: Credentials): (d: Credentials)
    ensures d.email == c.email
    ensures c.email != "" ==> d == c
    ensures c.email == "" ==> d == Credentials("", "", "")
  {
    if c.email != "" then c else Credentials("", "", "")
  }

  /** The session the sign-in modal creates: the email as given, the text
      before its first `@` (all of it when there is none) as the name, and
      the first non-empty role among the submitted one, the modal's and
      "user". No check is made on any value. */
  function SignInSession(c: Credentials, modalRole: string): (s: Session)
    ensures s.email == c.email
    ensures |s.name| <= |c.email| && s.name == c.email[..|s.name|] && '@' !in s.name
    ensures |s.name| < |c.email| ==> c.email[|s.name|] == '@'
    ensures s.role != ""
    ensures c.email != "" && c.role != "" ==> s.role == c.role
    ensures (c.email == "" || c.role == "") && modalRole != "" ==> s.role == modalRole
    ensures (c.email == "" || c.role == "") && modalRole == "" ==> s.role == "user"
  {
    var data := SubmittedData(c);
    var role := if data.role != "" then data.role
                else if modalRole != "" then modalRole
                else "user";
    BeforeSpec(data.email, '@');
    Session(role, Before(data.email, '@'), data.email)
  }

  /** Signing in never looks at the password: any password, however short,
      gives the same session. */
  lemma SignInIgnoresPassword(c: Credentials, password: string, modalRole: string)
    ensures SignInSession(c.(password := password), modalRole) == SignInSession(c, modalRole)
  {
  }

  /** The display name on the dashboard: `currentUser?.name ||` the
      placeholder. */
  function DashboardName(user: Option<Session>, arabic: bool): (g: Greeting)
    ensures g.Placeholder? <==> user.None? || user.value.name == ""
    ensures g.Named? ==> g.name == user.value.name
    ensures g.Placeholder? ==> g.arabic == arabic
  {
    if user.Some? && user.value.name != "" then Named(user.value.name) else Placeholder(arabic)
  }

  /** The role badge on the dashboard: `currentUser?.role || 'user'`. */
  function DashboardRole(user: Option<Session>): (role: string)
    ensures role != ""
    ensures user.Some? && user.value.role != "" ==> role == user.value.role
    ensures role != "user" ==> user.Some? && role == user.value.role
  {
    if user.Some? && user.value.role != "" then user.value.role else "user"
  }

  /** A form's stored errors are either the initial empty map or what the
      validator said of the form's current values, in the language active
      when it was stored. */
  predicate StoredErrorsAgree(f: Form, role: Role) {
    f.errors == map[]
    || f.errors == ValidateForm(f, false, role)
    || f.errors == ValidateForm(f, true, role)
  }

  /** Every field a form shows an error for fails its rule now: stored
      errors are never stale. */
  lemma {:induction false} StoredErrorsAreCurrent(f: Form, role: Role, k: Field)
    requires StoredErrorsAgree(f, role)
    requires k in f.errors
    ensures k in RoleFields(role) && Expected(f, k).Some?
    ensures f.errors[k].rule == Expected(f, k).value
  {
    ValidateFormMeetsRules(f, f.errors[k].arabic, role, k);
  }

  /** The converse does not hold: an untouched form shows no error although
      its empty full name fails. A field missing from the stored map is not
      thereby valid. */
  lemma PristineFormShowsNoErrors(role: Role)
    ensures StoredErrorsAgree(EmptyForm, role)
    ensures FullName !in EmptyForm.errors
    ensures Expected(EmptyForm, FullName) == Some(Required)
  {
    ExpectedByField(EmptyForm);
  }

  /** Storing the validator's verdict on a form keeps the form's errors in
      agreement with its values. */
  lemma ShownErrorsAgree(f: Form, arabic: bool, role: Role)
    ensures StoredErrorsAgree(f.(errors := ValidateForm(f, arabic, role)), role)
  {
    ValidateFormIgnoresStoredErrors(f, ValidateForm(f, arabic, role), arabic, role);
  }

  /** The application state held by the top-level component. */
  class App {
    var currentPage: Page
    var isArabic: bool
    var userForm: Form
    var doctorForm: Form
    var adminForm: Form
    var showSignInModal: bool
    var modalRole: string
    var signedEmail: string
    var signedPassword: string
    var currentUser: Option<Session>

    /** What every handler preserves: each form's stored errors agree with
        its values. */
    predicate Valid()
      reads this`userForm, this`doctorForm, this`adminForm
    {
      UserFormValid() && DoctorFormValid() && AdminFormValid()
    }

    // One predicate per form, each reading only its own field, so that a
    // handler touching one form keeps the other two valid by framing.

    predicate UserFormValid()
      reads this`userForm
    {
      StoredErrorsAgree(userForm, User)
    }

    predicate DoctorFormValid()
      reads this`doctorForm
    {
      StoredErrorsAgree(doctorForm, Doctor)
    }

    predicate AdminFormValid()
      reads this`adminForm
    {
      StoredErrorsAgree(adminForm, Admin)
    }

    /** The state when the application starts. */
    constructor ()
      ensures Valid()
      ensures currentPage == Welcome && !isArabic
      ensures userForm == EmptyForm && doctorForm == EmptyForm && adminForm == EmptyForm
      ensures !showSignInModal && modalRole == "user"
      ensures signedEmail == "" && signedPassword == ""
      ensures currentUser == None
    {
      currentPage := Welcome;
      isArabic := false;
      userForm, doctorForm, adminForm := EmptyForm, EmptyForm, EmptyForm;
      showSignInModal := false;
      modalRole := "user";
      signedEmail, signedPassword := "", "";
      currentUser := None;
    }

    /** `toggleLanguage`: flips the display language; stored errors keep
        the language they were produced in. */
    method ToggleLanguage()
      requires Valid()
      modifies this`isArabic
      ensures Valid()
      ensures isArabic == !old(isArabic)
    {
      isArabic := !isArabic;
    }

    /** `handleRoleSelect(page)`: shows the page, unconditionally. */
    method HandleRoleSelect(page: Page)
      modifies this`currentPage
      ensures currentPage == page
    {
      currentPage := page;
    }

    /** `handleBackToWelcome`. */
    method HandleBackToWelcome()
      modifies this`currentPage
      ensures currentPage == Welcome
    {
      currentPage := Welcome;
    }

    /** `openSignInModal(role)`: shows the modal and remembers the role of
        the page that opened it. */
    method OpenSignInModal(role: string)
      modifies this`modalRole, this`showSignInModal
      ensures showSignInModal && modalRole == role
    {
      modalRole := role;
      showSignInModal := true;
    }

    /** `closeSignInModal`: hides the modal; the carried email and password
        stay for the next time it opens. */
    method CloseSignInModal()
      modifies this`showSignInModal
      ensures !showSignInModal
    {
      showSignInModal := false;
    }

    /** `handleSignInSubmit(e)`: nothing happens without an argument;
        otherwise the submitted email and password are carried, whoever
        they name is signed in without any check, and the dashboard
        replaces the modal. */
    method HandleSignInSubmit(e: Option<Credentials>)
      modifies this`signedEmail, this`signedPassword, this`currentUser,
               this`currentPage, this`showSignInModal
      ensures e.None? ==>
                signedEmail == old(signedEmail) && signedPassword == old(signedPassword)
                && currentUser == old(currentUser) && currentPage == old(currentPage)
                && showSignInModal == old(showSignInModal)
      ensures e.Some? ==>
                signedEmail == e.value.email
                && signedPassword == (if e.value.email != "" then e.value.password else "")
                && currentUser == Some(SignInSession(e.value, modalRole))
                && currentPage == Dashboard && !showSignInModal
    {
      if e.None? {
        return;
      }
      var data := SubmittedData(e.value);
      signedEmail := data.email;
      signedPassword := data.password;
      currentUser := Some(SignInSession(e.value, modalRole));
      currentPage := Dashboard;
      CloseSignInModal();
    }

    /** `handleForgotPassword`: raises a notice in the display language and
        changes nothing. */
    method HandleForgotPassword() returns (notice: Notice)
      ensures notice == PasswordResetDisabled(isArabic)
    {
      notice := PasswordResetDisabled(isArabic);
    }

    /** `handleCreateAccountFromModal(role)`: hides the modal and opens the
        sign-up page for the role. */
    method HandleCreateAccountFromModal(role: string)
      modifies this`showSignInModal, this`currentPage
      ensures !showSignInModal
      ensures currentPage == SignupPageFor(role)
    {
      showSignInModal := false;
      currentPage := SignupPageFor(role);
    }

    /** `handleUserFormChange(field, value)`: only the named field of the
        user form changes, and its stored errors become the validator's
        verdict on the new values. */
    method HandleUserFormChange(field: Field, value: string)
      requires Valid()
      modifies this`userForm
      ensures Valid()
      ensures userForm == old(userForm).With(field, value).(errors := userForm.errors)
      ensures userForm.errors == ValidateForm(userForm, isArabic, User)
    {
      var newForm := userForm.With(field, value);
      var errors := ValidateForm(newForm, isArabic, User);
      ValidateFormIgnoresStoredErrors(newForm, errors, isArabic, User);
      userForm := newForm.(errors := errors);
    }

    /** `handleDoctorFormChange(field, value)`. */
    method HandleDoctorFormChange(field: Field, value: string)
      requires Valid()
      modifies this`doctorForm
      ensures Valid()
      ensures doctorForm == old(doctorForm).With(field, value).(errors := doctorForm.errors)
      ensures doctorForm.errors == ValidateForm(doctorForm, isArabic, Doctor)
    {
      var newForm := doctorForm.With(field, value);
      var errors := ValidateForm(newForm, isArabic, Doctor);
      ValidateFormIgnoresStoredErrors(newForm, errors, isArabic, Doctor);
      doctorForm := newForm.(errors := errors);
    }

    /** `handleAdminFormChange(field, value)`. */
    method HandleAdminFormChange(field: Field, value: string)
      requires Valid()
      modifies this`adminForm
      ensures Valid()
      ensures adminForm == old(adminForm).With(field, value).(errors := adminForm.errors)
      ensures adminForm.errors == ValidateForm(adminForm, isArabic, Admin)
    {
      var newForm := adminForm.With(field, value);
      var errors := ValidateForm(newForm, isArabic, Admin);
      ValidateFormIgnoresStoredErrors(newForm, errors, isArabic, Admin);
      adminForm := newForm.(errors := errors);
    }

    /** `handleUserSignupSubmit`: a form the role accepts signs its owner
        in and opens the dashboard; any other form keeps its values, shows
        every current error and nothing else changes. */
    method HandleUserSignupSubmit()
      requires Valid()
      modifies this`userForm, this`currentUser, this`currentPage
      ensures Valid()
      ensures FormValid(old(userForm), User) ==>
                userForm == old(userForm)
                && currentUser == Some(Session("user", userForm.fullName, userForm.email))
                && currentPage == Dashboard
      ensures !FormValid(old(userForm), User) ==>
                userForm == old(userForm).(errors := ValidateForm(old(userForm), isArabic, User))
                && userForm.errors != map[]
                && currentUser == old(currentUser) && currentPage == old(currentPage)
    {
      var errors := ValidateForm(userForm, isArabic, User);
      ValidateFormEmptyIff(userForm, isArabic, User);
      if errors != map[] {
        ShownErrorsAgree(userForm, isArabic, User);
        userForm := userForm.(errors := errors);
      } else {
        currentUser := Some(Session(RoleName(User), userForm.fullName, userForm.email));
        currentPage := Dashboard;
      }
    }

    /** `handleDoctorSignupSubmit`. */
    method HandleDoctorSignupSubmit()
      requires Valid()
      modifies this`doctorForm, this`currentUser, this`currentPage
      ensures Valid()
      ensures FormValid(old(doctorForm), Doctor) ==>
                doctorForm == old(doctorForm)
                && currentUser == Some(Session("doctor", doctorForm.fullName, doctorForm.email))
                && currentPage == Dashboard
      ensures !FormValid(old(doctorForm), Doctor) ==>
                doctorForm == old(doctorForm).(errors := ValidateForm(old(doctorForm), isArabic, Doctor))
                && doctorForm.errors != map[]
                && currentUser == old(currentUser) && currentPage == old(currentPage)
    {
      var errors := ValidateForm(doctorForm, isArabic, Doctor);
      ValidateFormEmptyIff(doctorForm, isArabic, Doctor);
      if errors != map[] {
        ShownErrorsAgree(doctorForm, isArabic, Doctor);
        doctorForm := doctorForm.(errors := errors);
      } else {
        currentUser := Some(Session(RoleName(Doctor), doctorForm.fullName, doctorForm.email));
        currentPage := Dashboard;
      }
    }

    /** `handleAdminSignupSubmit`. */
    method HandleAdminSignupSubmit()
      requires Valid()
      modifies this`adminForm, this`currentUser, this`currentPage
      ensures Valid()
      ensures FormValid(old(adminForm), Admin) ==>
                adminForm == old(adminForm)
                && currentUser == Some(Session("admin", adminForm.fullName, adminForm.email))
                && currentPage == Dashboard
      ensures !FormValid(old(adminForm), Admin) ==>
                adminForm == old(adminForm).(errors := ValidateForm(old(adminForm), isArabic, Admin))
                && adminForm.errors != map[]
                && currentUser == old(currentUser) && currentPage == old(currentPage)
    {
      var errors := ValidateForm(adminForm, isArabic, Admin);
      ValidateFormEmptyIff(adminForm, isArabic, Admin);
      if errors != map[] {
        ShownErrorsAgree(adminForm, isArabic, Admin);
        adminForm := adminForm.(errors := errors);
      } else {
        currentUser := Some(Session(RoleName(Admin), adminForm.fullName, adminForm.email));
        currentPage := Dashboard;
      }
    }

    /** The dashboard's sign-out button: no one is signed in and the
        welcome page shows. */
    method SignOut()
      modifies this`currentUser, this`currentPage
      ensures currentUser == None && currentPage == Welcome
    {
      currentUser := None;
      currentPage := Welcome;
    }
  }
}
