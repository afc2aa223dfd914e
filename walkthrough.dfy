/** Example runs of the portal, each played on a fresh application state
    through the handlers alone. */
module Walkthrough {
  import opened Optional
  import opened Text
  import opened Patterns
  import opened Validation
  import opened Portal

  lemma AnaNameNotBlank()
    ensures !AllWhitespace("Ana Lee")
  {
    assert !IsWhitespace("Ana Lee"[0]);
  }

  lemma AnaEmailMatches()
    ensures !AllWhitespace("ana@x.com") && MatchesEmailPattern("ana@x.com")
  {
    assert !IsWhitespace("ana@x.com"[0]);
    EmailExamplesAccepted();
    EmailShapeMatchesPattern("ana@x.com");
  }

  lemma AnaPhoneHasTenDigits()
    ensures !AllWhitespace("5551234567") && |DigitsOnly("5551234567")| == 10
  {
    var d := "5551234567";
    assert !IsWhitespace(d[0]);
    forall i | 0 <= i < |d| ensures IsDigit(d[i]) {
      assert d[i] in {'1', '2', '3', '4', '5', '6', '7'};
    }
    DigitsOnlyOfDigits(d);
  }

  lemma AnaPasswordLength()
    ensures Utf16Length("secret") == 6
  {
    var p := "secret";
    forall i | 0 <= i < |p| ensures p[i] as int <= 0xFFFF {
      assert p[i] in {'s', 'e', 'c', 'r', 't'};
    }
    Utf16LengthBmp(p);
  }

  /** Ana's common fields meet every common rule. */
  lemma AnaFieldsPass(f: Form)
    requires f.fullName == "Ana Lee" && f.email == "ana@x.com" && f.phone == "5551234567"
    requires f.password == "secret" && f.confirmPassword == "secret"
    ensures Expected(f, FullName) == None && Expected(f, Email) == None
    ensures Expected(f, Phone) == None
    ensures Expected(f, Password) == None && Expected(f, ConfirmPassword) == None
    ensures FormValid(f, User)
  {
    ExpectedByField(f);
    AnaNameNotBlank();
    AnaEmailMatches();
    AnaPhoneHasTenDigits();
    AnaPasswordLength();
    FormValidByField(f, User);
  }

  /** A user who fills in the form correctly is signed in under the name
      and email typed and sees the dashboard. */
  method UserRegistration() returns (page: Page, user: Option<Session>, errors: ErrorMap)
    ensures page == Dashboard
    ensures user == Some(Session("user", "Ana Lee", "ana@x.com"))
    ensures errors == map[]
  {
    var app := new App();
    app.HandleRoleSelect(UserSignup);
    app.HandleUserFormChange(FullName, "Ana Lee");
    app.HandleUserFormChange(Email, "ana@x.com");
    app.HandleUserFormChange(Phone, "5551234567");
    app.HandleUserFormChange(Password, "secret");
    app.HandleUserFormChange(ConfirmPassword, "secret");
    var f := app.userForm;
    AnaFieldsPass(f);
    ValidateFormEmptyIff(f, false, User);
    app.HandleUserSignupSubmit();
    page, user, errors := app.currentPage, app.currentUser, app.userForm.errors;
  }

  /** Ana's doctor registration without a specialization fails on that
      field alone. */
  lemma MissingSpecializationErrors(f: Form)
    requires f.fullName == "Ana Lee" && f.email == "ana@x.com" && f.phone == "5551234567"
    requires f.password == "secret" && f.confirmPassword == "secret"
    requires f.specialization == "" && f.licenseNumber == "L-1"
    ensures !FormValid(f, Doctor)
    ensures ValidateForm(f, false, Doctor) == map[Specialization := Message(Required, false)]
  {
    AnaFieldsPass(f);
    ExpectedByField(f);
    assert !IsWhitespace("L-1"[0]);
    assert Expected(f, Specialization) == Some(Required);
    assert Expected(f, LicenseNumber) == None;
    forall k | k in RoleFields(Doctor) && k != Specialization ensures Expected(f, k) == None {
      assert k in {FullName, Email, Phone, LicenseNumber, Password, ConfirmPassword};
    }
    ValidateFormSingleFailure(f, false, Doctor, Specialization);
  }

  /** Ana's doctor registration typed in field by field, leaving the
      specialization empty. */
  method FillDoctorDraft() returns (app: App)
    ensures fresh(app) && app.Valid()
    ensures app.currentPage == DoctorSignup && app.currentUser == None && !app.isArabic
    ensures app.doctorForm.fullName == "Ana Lee" && app.doctorForm.email == "ana@x.com"
    ensures app.doctorForm.phone == "5551234567" && app.doctorForm.specialization == ""
    ensures app.doctorForm.licenseNumber == "L-1"
    ensures app.doctorForm.password == "secret" && app.doctorForm.confirmPassword == "secret"
  {
    app := new App();
    app.HandleRoleSelect(DoctorSignup);
    app.HandleDoctorFormChange(FullName, "Ana Lee");
    app.HandleDoctorFormChange(Email, "ana@x.com");
    app.HandleDoctorFormChange(Phone, "5551234567");
    app.HandleDoctorFormChange(LicenseNumber, "L-1");
    app.HandleDoctorFormChange(Password, "secret");
    app.HandleDoctorFormChange(ConfirmPassword, "secret");
  }

  /** A doctor who leaves the specialization empty stays on the doctor's
      page, sees that one error and is not signed in. */
  method DoctorWithoutSpecialization() returns (page: Page, user: Option<Session>, errors: ErrorMap)
    ensures page == DoctorSignup
    ensures user == None
    ensures errors == map[Specialization := Message(Required, false)]
  {
    var app := FillDoctorDraft();
    var f := app.doctorForm;
    MissingSpecializationErrors(f);
    app.HandleDoctorSignupSubmit();
    page, user, errors := app.currentPage, app.currentUser, app.doctorForm.errors;
  }

  /** The sign-in handler alone, given the record with email "bob@x.com",
      password "abc" and no role after the modal was opened from the
      administrator's page: it signs in without checking the password,
      names the session by the text before the `@` and takes the modal's
      role. */
  method ModalSignInUnchecked() returns (page: Page, user: Option<Session>, modalShown: bool, errors: ErrorMap)
    ensures page == Dashboard
    ensures user == Some(Session("admin", "bob", "bob@x.com"))
    ensures !modalShown
    ensures errors == map[]
  {
    var app := new App();
    app.HandleRoleSelect(AdminSignup);
    app.OpenSignInModal("admin");
    app.HandleSignInSubmit(Some(Credentials("bob@x.com", "abc", "")));
    BeforeFirst("bob", '@', "x.com");
    assert "bob@x.com" == "bob" + ['@'] + "x.com";
    page, user, modalShown, errors := app.currentPage, app.currentUser, app.showSignInModal, app.adminForm.errors;
  }

  /** "Create account" in a modal opened from the doctor's page closes it
      and opens the doctor's sign-up page. */
  method CreateAccountFromDoctorModal() returns (page: Page, modalShown: bool)
    ensures page == DoctorSignup
    ensures !modalShown
  {
    var app := new App();
    app.HandleRoleSelect(DoctorSignup);
    app.OpenSignInModal("doctor");
    app.HandleCreateAccountFromModal(app.modalRole);
    page, modalShown := app.currentPage, app.showSignInModal;
  }

  /** Signing out of the dashboard clears the session and returns to the
      welcome page. */
  method SignOutFromDashboard() returns (page: Page, user: Option<Session>)
    ensures page == Welcome
    ensures user == None
  {
    var app := new App();
    app.HandleRoleSelect(UserSignup);
    app.OpenSignInModal("user");
    app.HandleSignInSubmit(Some(Credentials("bob@x.com", "abc", "")));
    assert app.currentPage == Dashboard && app.currentUser.Some?;
    app.SignOut();
    page, user := app.currentPage, app.currentUser;
  }

  /** The state update the sign-in handler makes when the modal's form
      hands it the submit event, which carries no email: the session has the
      modal's role, an empty name and an empty email, and the dashboard
      fallbacks give the placeholder name and the modal's role. */
  method SubmitEventSignIn() returns (user: Option<Session>, greeting: Greeting, badge: string)
    ensures user == Some(Session("doctor", "", ""))
    ensures greeting == Placeholder(false)
    ensures badge == "doctor"
  {
    var app := new App();
    app.HandleRoleSelect(DoctorSignup);
    app.OpenSignInModal("doctor");
    app.HandleSignInSubmit(Some(Credentials("", "", "")));
    user := app.currentUser;
    greeting := DashboardName(user, app.isArabic);
    badge := DashboardRole(user);
  }

  /** Toggling the language leaves a shown error in the language it was
      produced in; the next edit re-validates in the new language. Toggling
      twice returns to English. */
  method LanguageToggle() returns (shown: Message, arabic: bool, revalidated: Message, finalArabic: bool)
    ensures shown == Message(InvalidEmail, false) && arabic
    ensures revalidated == Message(InvalidEmail, true)
    ensures !finalArabic
  {
    var app := new App();
    app.HandleRoleSelect(UserSignup);
    app.HandleUserFormChange(Email, "foo");
    EmailExamplesRejected();
    assert !IsWhitespace("foo"[0]);
    TrimEmptyIff("foo");
    assert app.userForm.email == app.userForm.Get(Email);
    assert Email in app.userForm.errors;
    app.ToggleLanguage();
    shown, arabic := app.userForm.errors[Email], app.isArabic;
    app.HandleUserFormChange(FullName, "Ana Lee");
    assert app.userForm.email == app.userForm.Get(Email);
    revalidated := app.userForm.errors[Email];
    app.ToggleLanguage();
    finalArabic := app.isArabic;
  }
}
