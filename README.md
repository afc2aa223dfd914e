# MedSync registration and session core, in Dafny

MedSync is a bilingual (English/Arabic) healthcare portal demo built as a
single React component. This project models the two parts of it that hold
logic:

- **The registration validator `validateForm`.** It takes a form record,
  a role (user, doctor or administrator) and the display language. It
  returns the error map: one message per failing field. Every rule is
  stated twice:
  - as the check the code evaluates (`Validation.Check`): trimming, the
    two regular expressions written as direct string checks, and
    digit stripping;
  - declaratively, in terms of the regular expressions' languages and
    plain string properties (`Validation.Expected`).

  Lemmas prove that the two agree. They also prove that the map reports
  exactly the failing fields of the role, that the language changes only
  the text of a message, and one lemma per rule.
- **The application state.** The class `Portal.App` holds the page
  shown, the language, the three sign-up forms, the sign-in modal's
  state, the carried sign-in email and password, and the signed-in user.
  Each event handler is a method. Its `modifies` clause names the fields
  it writes, so everything else is unchanged by framing. Its `ensures`
  clause gives the new value of those fields.
- **The invariant `Portal.App.Valid`.** Each form's stored errors are
  either the initial empty map or the validator's verdict on the form's
  current values. Every handler that touches a form keeps it.
- **Example runs.** The `Walkthrough` module plays example runs through
  the handlers, each on a fresh `App`.

The modules:

| module | file | contents |
|---|---|---|
| `Optional` | option.dfy | `Option` |
| `Text` | text.dfy | the string built-ins the code relies on: `trim`, `indexOf`/`split`, `replace(/\D/g, '')`, UTF-16 `.length` |
| `Patterns` | patterns.dfy | the two regular expressions |
| `Validation` | validation.dfy | forms, `validateForm` and its rules |
| `Portal` | portal.dfy | sessions, the dashboard fallbacks, `App` and its handlers |
| `Walkthrough` | walkthrough.dfy | example runs through the handlers |

Conventions of the model:

- **Missing properties.** A property a JavaScript object lacks reads as
  the empty string. Every rule treats it exactly as it treats
  `undefined`.
- **Whitespace.** `trim` and `\s` use the ECMAScript WhiteSpace and
  LineTerminator set, which `Text.IsWhitespace` lists.
- **Password length.** The password's length is its count of UTF-16
  code units, `Text.Utf16Length`.
- **Messages.** A message is a pair: the rule that failed and whether it
  is the Arabic text.

Facts about the code worth knowing:

- **Errors of an untouched form.** A field missing from a form's error
  map is not thereby valid. An untouched form has an empty map, yet its
  empty fields fail (`Portal.PristineFormShowsNoErrors`). The invariant
  kept is therefore `StoredErrorsAgree`: a field that *is* in the map
  currently fails.
- **Sign-in with an empty email.** It stores an empty name. The
  dashboard then shows the placeholder "User" in the display language,
  whatever the role (`Portal.DashboardName`).
- **The modal's submit.** The sign-in modal hands the browser's submit
  event to the handler (src/components/SignInModal.jsx:48). The event
  has no `email` property, so the handler's state update stores a session
  with an empty name and email (`Walkthrough.SubmitEventSignIn`).

## Model

| member | source | states |
|---|---|---|
| Text.TrimStartSpec | src/App.jsx:116 | leading trim removes only whitespace and stops at the first character that is not |
| Text.TrimEndSpec | src/App.jsx:116 | trailing trim removes only whitespace and stops at the last character that is not |
| Text.TrimSpec | src/App.jsx:116 | `trim()` keeps one contiguous piece of the string, with only whitespace removed on either side, and the piece neither starts nor ends with whitespace |
| Text.TrimEmptyIff | src/App.jsx:116 | `!s \|\| !s.trim()` holds exactly when the string is empty or all whitespace |
| Text.IndexOfSpec | src/App.jsx:94 | `indexOf` returns the first position of the character, and -1 exactly when it does not occur |
| Text.BeforeSpec | src/App.jsx:94 | `email.split('@')[0]` is a prefix of the email without `@`, followed by the first `@` when shorter than the email |
| Text.BeforeFirst | src/App.jsx:94 | splitting `a + "@" + b` with no `@` in `a` gives `a` |
| Text.BeforeWithout | src/App.jsx:94 | with no `@`, the split keeps the whole email |
| Text.DigitsOnlyAllDigits | src/App.jsx:126 | `replace(/\D/g, '')` leaves only decimal digits |
| Text.DigitsOnlyCounts | src/App.jsx:126 | each digit is kept as often as it occurs, and nothing else is kept |
| Text.DigitsOnlyAppend | src/App.jsx:126 | stripping non-digits distributes over concatenation |
| Text.DigitsOnlyOfNonDigits | src/App.jsx:126 | a string without digits strips to the empty string |
| Text.DigitsOnlyOfDigits | src/App.jsx:126 | a string of digits is unchanged |
| Text.Utf16Length | src/App.jsx:152 | `.length` lies between the code-point count and twice it |
| Text.Utf16LengthBmp | src/App.jsx:152 | `.length` equals the code-point count exactly when every code point is in the Basic Multilingual Plane |
| Patterns.EmailShapeMatchesPattern | src/App.jsx:113 | the direct address check accepts exactly the strings `/^[^\s@]+@[^\s@]+\.[^\s@]+$/` matches |
| Patterns.EmailShapeSound | src/App.jsx:113 | every string the direct check accepts matches the pattern |
| Patterns.EmailShapeComplete | src/App.jsx:113 | every string the pattern matches passes the direct check |
| Patterns.EmailShapeOfParts | src/App.jsx:113 | split at its first `@`, an address passes exactly when the local part is non-empty, there is no whitespace, no second `@`, and the domain has an inner `.` |
| Patterns.EmailAcceptsSeveralDots | src/App.jsx:113 | "a@b.c.d" passes |
| Patterns.EmailExamplesAccepted | src/App.jsx:113 | "a@b.co" and "ana@x.com" pass |
| Patterns.EmailExamplesRejected | src/App.jsx:121 | " a@b.co" (untrimmed), "foo", "foo@" and "foo@bar" fail |
| Patterns.PhonePatternOnDigits | src/App.jsx:114 | on a digit-stripped string, `/^[0-9]{10,}$/` asks only for ten or more characters |
| Validation.Form.With | src/App.jsx:166 | `{ ...form, [field]: value }` sets that field, keeps every other field and keeps the errors |
| Validation.CheckOrder | src/App.jsx:131-148 | the fields checked are exactly the role's fields: the five common ones, plus specialization and licence for a doctor, or organization and code for an administrator |
| Validation.ReportAll | src/App.jsx:111-162 | running the conditional assignments in sequence adds exactly the failing fields, each with its rule's message |
| Validation.ValidateForm | src/App.jsx:111-162 | the error map's keys are among the role's fields |
| Validation.ValidateFormInSourceOrder | src/App.jsx:111-162 | the assignments run in source order from `{}` give the same map: every rule runs and none overrides another |
| Validation.CheckMeetsRule | src/App.jsx:116-159 | each evaluated check decides exactly its declarative rule |
| Validation.ValidateFormMeetsRules | src/App.jsx:111-162 | a field is in the map iff it belongs to the role and breaks its rule, and its message is that rule's in the requested language |
| Validation.ValidateFormEmptyIff | src/App.jsx:186 | the map is empty exactly when every one of the role's fields meets its rule |
| Validation.ValidateFormSingleFailure | src/App.jsx:111-162 | when exactly one role field fails, the map holds that field alone |
| Validation.ValidateFormLanguageOnlyChangesText | src/App.jsx:116-159 | English and Arabic report the same fields for the same reasons |
| Validation.ValidateFormIgnoresStoredErrors | src/App.jsx:111-162 | the stored `errors` property plays no part, so re-validating a stored form gives the same map |
| Validation.RequiredTextRule | src/App.jsx:116-148 | full name, specialization, licence, organization and code are reported, as missing, iff the role asks for them and they are empty or whitespace; so the user role never reports the four role-specific fields |
| Validation.EmailRule | src/App.jsx:119-123 | email is reported iff it is blank or its untrimmed text fails the pattern: "required" when blank, "invalid" otherwise |
| Validation.PhoneRule | src/App.jsx:124-128 | phone is reported iff it is blank or fewer than ten digits remain after stripping: "required" when blank, "too few digits" otherwise |
| Validation.PhoneIgnoresPunctuation | src/App.jsx:126 | inserting non-digit characters anywhere into a phone, blank or not, never changes whether it is reported |
| Validation.PhoneExampleWithPunctuation | src/App.jsx:124-128 | "(555) 123-4567" passes |
| Validation.PasswordRule | src/App.jsx:150-154 | password is reported iff it is empty ("required") or its `.length` is below six ("too short"); six spaces pass |
| Validation.ConfirmPasswordRule | src/App.jsx:155-159 | the confirmation is reported iff it is empty ("required") or differs from the password ("mismatch"), whether or not the password is valid |
| Portal.SignupPageFor | src/App.jsx:104-108 | `map[role] \|\| 'userSignup'` is always a sign-up page: the doctor's or administrator's exactly for those names, the user's otherwise |
| Portal.SignupPageForRoleName | src/App.jsx:104-108 | a role's name leads to the sign-up page of that role |
| Portal.SubmittedData | src/App.jsx:87 | `e && e.email ? e : {}` keeps the argument whole when it has an email; otherwise email, password and role are all empty |
| Portal.SignInSession | src/App.jsx:84-97 | the session keeps the email, is named by the text before the first `@`, and takes the first non-empty role among the submitted one, the modal's and "user" |
| Portal.SignInIgnoresPassword | src/App.jsx:84-97 | the password has no influence on the session |
| Portal.DashboardName | src/App.jsx:763 | the session's name, or the placeholder in the display language when there is no session or the name is empty |
| Portal.DashboardRole | src/App.jsx:764 | the session's role, or "user" when there is none; never empty |
| Portal.StoredErrorsAreCurrent | src/App.jsx:165-181 | every field a form shows an error for currently breaks its rule, with that rule's message |
| Portal.PristineFormShowsNoErrors | src/App.jsx:10-14 | an untouched form shows no error although its empty full name fails |
| Portal.ShownErrorsAgree | src/App.jsx:186-189 | storing the validator's map keeps a form's errors in agreement with its values |
| Portal.App.constructor | src/App.jsx:6-76 | the initial state: welcome page, English, three empty forms, modal hidden with role "user", nothing carried, nobody signed in |
| Portal.App.ToggleLanguage | src/App.jsx:16-18 | flips the language and touches nothing else; stored errors keep their language |
| Portal.App.HandleRoleSelect | src/App.jsx:25-27 | shows the requested page unconditionally |
| Portal.App.HandleBackToWelcome | src/App.jsx:29-31 | shows the welcome page |
| Portal.App.OpenSignInModal | src/App.jsx:78-81 | shows the modal and records the role that opened it |
| Portal.App.CloseSignInModal | src/App.jsx:82 | hides the modal; the carried email and password stay |
| Portal.App.HandleSignInSubmit | src/App.jsx:84-97 | with no argument nothing changes; otherwise the email and password are carried, the session is created without any check, and the dashboard replaces the modal |
| Portal.App.HandleForgotPassword | src/App.jsx:99-102 | raises a notice in the display language and changes nothing |
| Portal.App.HandleCreateAccountFromModal | src/App.jsx:104-108 | hides the modal and opens the sign-up page for the role |
| Portal.App.HandleUserFormChange | src/App.jsx:165-169 | only the named field of the user form changes, and its errors become the validator's map for the new form; the invariant holds |
| Portal.App.HandleDoctorFormChange | src/App.jsx:171-175 | the same for the doctor form, validated as a doctor's |
| Portal.App.HandleAdminFormChange | src/App.jsx:177-181 | the same for the administrator form, validated as an administrator's |
| Portal.App.HandleUserSignupSubmit | src/App.jsx:184-193 | an accepted form signs its owner in as "user" under the typed name and email and opens the dashboard; a rejected form stores its non-empty error map and nothing else changes |
| Portal.App.HandleDoctorSignupSubmit | src/App.jsx:195-204 | the same for the doctor's form and the role "doctor" |
| Portal.App.HandleAdminSignupSubmit | src/App.jsx:206-215 | the same for the administrator's form and the role "admin" |
| Portal.App.SignOut | src/App.jsx:777 | nobody is signed in and the welcome page shows |
| Walkthrough.UserRegistration | src/App.jsx:184-193 | Ana's correct user registration signs her in as ("user", "Ana Lee", "ana@x.com") on the dashboard with no errors |
| Walkthrough.MissingSpecializationErrors | src/App.jsx:131-138 | Ana's doctor form without a specialization fails on that field alone |
| Walkthrough.FillDoctorDraft | src/App.jsx:171-175 | typing the doctor form field by field leaves those values in the form |
| Walkthrough.DoctorWithoutSpecialization | src/App.jsx:195-204 | that doctor form stays on the doctor's page, shows only the specialization error, and signs nobody in |
| Walkthrough.ModalSignInUnchecked | src/App.jsx:84-97 | `handleSignInSubmit`, given the record {email "bob@x.com", password "abc"} after the modal was opened from the administrator's page, signs in ("admin", "bob", "bob@x.com") on the dashboard, closes the modal and does not check the password |
| Walkthrough.CreateAccountFromDoctorModal | src/App.jsx:104-108 | "create account" in a modal opened from the doctor's page opens the doctor's sign-up page with the modal closed |
| Walkthrough.SignOutFromDashboard | src/App.jsx:777 | signing out of the dashboard clears the session and returns to the welcome page |
| Walkthrough.SubmitEventSignIn | src/components/SignInModal.jsx:48 | the handler's state update for a submit event as argument: a session with the modal's role and an empty name and email, for which the dashboard fallbacks give the placeholder |
| Walkthrough.LanguageToggle | src/App.jsx:16-18 | a shown error keeps its language after a toggle; the next edit re-validates in the new language |

## Left out

- The JSX markup and presentation: styling, icons, the right-to-left switch, the back-button icon and the static dashboard figures. Only the dashboard's name and role fallbacks are modelled.
- The sign-in modal component's presentation and its uncontrolled inputs. The model does not claim that the modal reads its input values. Its submit argument is an optional credentials record, and the submit event is the all-empty record.
- The browser's default action for the modal's submit event, which the sign-in handler does not prevent (src/App.jsx:84-97), is not modelled. The model stops at the handler's state update.
- `alert` in the forgot-password handler is a browser call. It is modelled as a returned `Notice` that changes no state.
- React's scheduling, batching and re-rendering. Each handler is one atomic update that reads the state as it was before the event.
- The regular-expression engine. Both patterns are explicit string predicates. `trim` and `\s` use the fixed ECMAScript whitespace set, and `.length` counts UTF-16 code units per code point. Strings are sequences of code points: lone surrogates and Unicode normalisation are not modelled.
- The literal English and Arabic message texts. A message is a (rule, language) pair.
- `e.preventDefault()` in the sign-up submit handlers. It acts only on the browser event, so the model's handlers take no event.
- Portal.SignupPageFor: a role string naming an inherited property of the lookup object (for example `"toString"`) would make the source navigate to a non-page value. The model sends every string other than the three role names to the user's sign-up page.
- Portal.App.OpenSignInModal: the default argument `'user'` is not modelled separately. Every call site passes a role.
- Portal.App.HandleRoleSelect: it takes a `Page` value. The source passes the page name of a role card (src/App.jsx:44-68). For any other string the component would render nothing, and that is not modelled.
- Validation.ValidateForm: a role other than the three, such as the default `null`, is not modelled. Every call site passes one of the three.
- Validation.RequiredTextRule: it does not separately state that the user role never reports the four role-specific fields. This follows from its first clause, because those fields are not user fields.
- Authentication and credential storage do not exist in the source. `signedPassword` is only a carried string.
