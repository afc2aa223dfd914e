/** The registration validator shared by the three sign-up forms: the rule
    each field is checked against, the error map built from them, and what
    that map says about the form. */
module Validation {
  import opened Optional
  import opened Text
  import opened Patterns

  /** The three registration roles. */
  datatype Role = User | Doctor | Admin

  /** The role as the application spells it in session records. */
  function RoleName(r: Role): string {
    match r
    case User => "user"
    case Doctor => "doctor"
    case Admin => "admin"
  }

  /** The fields a sign-up form may hold. */
  datatype Field = FullName | Email | Phone | Specialization | LicenseNumber
                 | Organization | AdminCode | Password | ConfirmPassword

  /** The kind of failure a message reports; together with the field and the
      display language it selects the message text. */
  datatype Rule = Required | InvalidEmail | TooFewDigits | TooShort | Mismatch

  /** One error message: its kind and whether it is the Arabic text. */
  datatype Message = Message(rule: Rule, arabic: bool)

  type ErrorMap = map<Field, Message>

  /** A sign-up form record, with the error map last stored for it. A
      property the form object never had reads as the empty string, which
      every rule treats exactly as JavaScript treats `undefined`. */
  datatype Form = Form(fullName: string, email: string, phone: string,
                       specialization: string, licenseNumber: string,
                       organization: string, adminCode: string,
                       password: string, confirmPassword: string,
                       errors: ErrorMap)
  {
    /** `form[k]`. */
    function Get(k: Field): string {
      match k
      case FullName => fullName
      case Email => email
      case Phone => phone
      case Specialization => specialization
      case LicenseNumber => licenseNumber
      case Organization => organization
      case AdminCode => adminCode
      case Password => password
      case ConfirmPassword => confirmPassword
    }

    /** `{ ...form, [k]: v }`: field `k` holds `v`, everything else is kept. */
    function With(k: Field, v: string): (g: Form)
      ensures g.Get(k) == v
      ensures forall j :: j != k ==> g.Get(j) == Get(j)
      ensures g.errors == errors
    {
      match k
      case FullName => this.(fullName := v)
      case Email => this.(email := v)
      case Phone => this.(phone := v)
      case Specialization => this.(specialization := v)
      case LicenseNumber => this.(licenseNumber := v)
      case Organization => this.(organization := v)
      case AdminCode => this.(adminCode := v)
      case Password => this.(password := v)
      case ConfirmPassword => this.(confirmPassword := v)
    }
  }

  /** The form every role starts with: all fields empty, no errors. */
  const EmptyForm := Form("", "", "", "", "", "", "", "", "", map[])

  /** The fields the validator checks for a role. */
  function RoleFields(r: Role): set<Field> {
    {FullName, Email, Phone, Password, ConfirmPassword}
      + match r
        case User => {}
        case Doctor => {Specialization, LicenseNumber}
        case Admin => {Organization, AdminCode}
  }

  /** `!s || !s.trim()`. */
  predicate Blank(s: string) {
    Trim(s) == []
  }

  /** The rule applied to field `k`, as the validator evaluates it: the
      failure it reports, or `None` when the field passes. */
  function Check(f: Form, k: Field): Option<Rule> {
    match k
    case Email =>
      if Blank(f.email) then Some(Required)
      else if !EmailShapeOk(f.email) then Some(InvalidEmail)
      else None
    case Phone =>
      if Blank(f.phone) then Some(Required)
      else if !MatchesPhonePattern(DigitsOnly(f.phone)) then Some(TooFewDigits)
      else None
    case Password =>
      if f.password == [] then Some(Required)
      else if Utf16Length(f.password) < 6 then Some(TooShort)
      else None
    case ConfirmPassword =>
      if f.confirmPassword == [] then Some(Required)
      else if f.confirmPassword != f.password then Some(Mismatch)
      else None
    case _ =>
      if Blank(f.Get(k)) then Some(Required) else None
  }

  /** The fields a role's form is checked for, in the order the validator
      checks them. */
  function CheckOrder(r: Role): (ks: seq<Field>)
    ensures forall k :: k in ks <==> k in RoleFields(r)
  {
    [FullName, Email, Phone]
      + (match r
         case User => []
         case Doctor => [Specialization, LicenseNumber]
         case Admin => [Organization, AdminCode])
      + [Password, ConfirmPassword]
  }

  /** Runs the rules of `ks` one after the other, each failure setting
      `errors[k]` to its message. The result holds what `errors` held plus
      exactly the failing fields of `ks`, whose messages replace any older
      ones. */
  function ReportAll(errors: ErrorMap, f: Form, ks: seq<Field>, arabic: bool): (r: ErrorMap)
    ensures forall k :: k in r <==> k in errors || (k in ks && Check(f, k).Some?)
    ensures forall k :: k in r ==>
              r[k] == if k in ks && Check(f, k).Some? then Message(Check(f, k).value, arabic) else errors[k]
    decreases |ks|
  {
    if ks == [] then errors
    else
      var k := ks[0];
      var failure := Check(f, k);
      var next := if failure.Some? then errors[k := Message(failure.value, arabic)] else errors;
      assert forall j :: j in ks <==> j == k || j in ks[1..];
      ReportAll(next, f, ks[1..], arabic)
  }

  /** `validateForm(form, isArabic, role)`: the role's failing fields, each
      with the message of its rule in the requested language. */
  function ValidateForm(f: Form, arabic: bool, role: Role): (errors: ErrorMap)
    ensures errors.Keys <= RoleFields(role)
  {
    map k | k in RoleFields(role) && Check(f, k).Some? :: Message(Check(f, k).value, arabic)
  }

  /** The validator as the source runs it, one conditional assignment after
      another from an empty map, yields that same map: every rule runs, none
      cuts another short, and each field is written at most once. */
  lemma ValidateFormInSourceOrder(f: Form, arabic: bool, role: Role)
    ensures ReportAll(map[], f, CheckOrder(role), arabic) == ValidateForm(f, arabic, role)
  {
    var run := ReportAll(map[], f, CheckOrder(role), arabic);
    var errors := ValidateForm(f, arabic, role);
    assert run.Keys == errors.Keys;
  }

  // ---------------------------------------------------------------------
  // The rules stated declaratively, independently of how they are checked.

  /** What each rule demands, in terms of the patterns' languages and of
      plain string properties rather than trimming and the direct checks. */
  ghost function Expected(f: Form, k: Field): Option<Rule> {
    match k
    case Email =>
      if AllWhitespace(f.email) then Some(Required)
      else if !MatchesEmailPattern(f.email) then Some(InvalidEmail)
      else None
    case Phone =>
      if AllWhitespace(f.phone) then Some(Required)
      else if |DigitsOnly(f.phone)| < 10 then Some(TooFewDigits)
      else None
    case Password =>
      if f.password == [] then Some(Required)
      else if Utf16Length(f.password) < 6 then Some(TooShort)
      else None
    case ConfirmPassword =>
      if f.confirmPassword == [] then Some(Required)
      else if f.confirmPassword != f.password then Some(Mismatch)
      else None
    case _ =>
      if AllWhitespace(f.Get(k)) then Some(Required) else None
  }

  /** An unfolding aid: the declarative rules written out field by field,
      for proofs where the error map is also in view and unfolding
      `Expected` there would be costly. */
  lemma ExpectedByField(f: Form)
    ensures Expected(f, Email) ==
              if AllWhitespace(f.email) then Some(Required)
              else if !MatchesEmailPattern(f.email) then Some(InvalidEmail) else None
    ensures Expected(f, Phone) ==
              if AllWhitespace(f.phone) then Some(Required)
              else if |DigitsOnly(f.phone)| < 10 then Some(TooFewDigits) else None
    ensures Expected(f, Password) ==
              if f.password == [] then Some(Required)
              else if Utf16Length(f.password) < 6 then Some(TooShort) else None
    ensures Expected(f, ConfirmPassword) ==
              if f.confirmPassword == [] then Some(Required)
              else if f.confirmPassword != f.password then Some(Mismatch) else None
    ensures forall k :: k in {FullName, Specialization, LicenseNumber, Organization, AdminCode} ==>
              Expected(f, k) == if AllWhitespace(f.Get(k)) then Some(Required) else None
  {
  }

  /** A form the role accepts: every one of its fields meets its rule. */
  ghost predicate FormValid(f: Form, role: Role) {
    forall k :: k in RoleFields(role) ==> Expected(f, k) == None
  }

  /** An unfolding aid: a form is accepted exactly when each of the role's
      fields, listed one by one, meets its rule. */
  lemma FormValidByField(f: Form, role: Role)
    ensures FormValid(f, role) <==>
              Expected(f, FullName) == None && Expected(f, Email) == None
              && Expected(f, Phone) == None
              && (role == Doctor ==> Expected(f, Specialization) == None && Expected(f, LicenseNumber) == None)
              && (role == Admin ==> Expected(f, Organization) == None && Expected(f, AdminCode) == None)
              && Expected(f, Password) == None && Expected(f, ConfirmPassword) == None
  {
    var fields := RoleFields(role);
    assert FullName in fields && Email in fields && Phone in fields;
    assert Password in fields && ConfirmPassword in fields;
    assert role == Doctor ==> Specialization in fields && LicenseNumber in fields;
    assert role == Admin ==> Organization in fields && AdminCode in fields;
  }

  /** Each evaluated check decides exactly what its declarative rule says. */
  lemma CheckMeetsRule(f: Form, k: Field)
    ensures Check(f, k) == Expected(f, k)
  {
    TrimEmptyIff(f.Get(k));
    match k
    case Email => EmailShapeMatchesPattern(f.email);
    case Phone => PhonePatternOnDigits(f.phone);
    case _ =>
  }

  /** The whole error map in declarative terms: a field is reported exactly
      when it belongs to the role and breaks its rule, with that rule's
      message in the requested language. No rule hides another. */
  lemma ValidateFormMeetsRules(f: Form, arabic: bool, role: Role, k: Field)
    ensures k in ValidateForm(f, arabic, role) <==> k in RoleFields(role) && Expected(f, k).Some?
    ensures k in ValidateForm(f, arabic, role) ==>
              ValidateForm(f, arabic, role)[k] == Message(Expected(f, k).value, arabic)
  {
    CheckMeetsRule(f, k);
  }

  /** The map is empty exactly when the role accepts the form. */
  lemma ValidateFormEmptyIff(f: Form, arabic: bool, role: Role)
    ensures ValidateForm(f, arabic, role) == map[] <==> FormValid(f, role)
  {
    var errors := ValidateForm(f, arabic, role);
    forall k ensures k in errors <==> k in RoleFields(role) && Expected(f, k).Some? {
      CheckMeetsRule(f, k);
    }
    if errors != map[] {
      var k :| k in errors;
      assert Expected(f, k) != None;
    }
  }

  /** When exactly one of the role's fields breaks its rule, the map holds
      that field alone: no rule is reported twice or on behalf of another. */
  lemma ValidateFormSingleFailure(f: Form, arabic: bool, role: Role, failing: Field)
    requires failing in RoleFields(role) && Expected(f, failing).Some?
    requires forall k :: k in RoleFields(role) && k != failing ==> Expected(f, k) == None
    ensures ValidateForm(f, arabic, role) == map[failing := Message(Expected(f, failing).value, arabic)]
  {
    var errors := ValidateForm(f, arabic, role);
    var expected := map[failing := Message(Expected(f, failing).value, arabic)];
    assert errors.Keys == expected.Keys by {
      forall k ensures k in errors <==> k == failing {
        ValidateFormMeetsRules(f, arabic, role, k);
      }
    }
    assert errors[failing] == expected[failing] by {
      ValidateFormMeetsRules(f, arabic, role, failing);
    }
  }

  /** The language chooses the text of each message and nothing else: the
      same fields fail, for the same reasons, in English and in Arabic. */
  lemma ValidateFormLanguageOnlyChangesText(f: Form, role: Role)
    ensures ValidateForm(f, true, role).Keys == ValidateForm(f, false, role).Keys
    ensures forall k :: k in ValidateForm(f, true, role) ==>
              ValidateForm(f, true, role)[k].rule == ValidateForm(f, false, role)[k].rule
  {
  }

  /** The stored error map plays no part in validation. */
  lemma ValidateFormIgnoresStoredErrors(f: Form, errors: ErrorMap, arabic: bool, role: Role)
    ensures ValidateForm(f.(errors := errors), arabic, role) == ValidateForm(f, arabic, role)
  {
    var g := f.(errors := errors);
    assert forall k :: Check(g, k) == Check(f, k);
  }

  // ---------------------------------------------------------------------
  // One rule at a time.

  /** Full name, specialization, licence number, organization and
      administrator code: reported, as missing, exactly when the role asks
      for the field and it is empty or whitespace only. */
  lemma RequiredTextRule(f: Form, arabic: bool, role: Role, k: Field)
    requires k in {FullName, Specialization, LicenseNumber, Organization, AdminCode}
    ensures k in ValidateForm(f, arabic, role) <==> k in RoleFields(role) && AllWhitespace(f.Get(k))
    ensures k in ValidateForm(f, arabic, role) ==> ValidateForm(f, arabic, role)[k] == Message(Required, arabic)
  {
    ValidateFormMeetsRules(f, arabic, role, k);
    ExpectedByField(f);
    var rule := Expected(f, k);
    assert rule == if AllWhitespace(f.Get(k)) then Some(Required) else None;
  }

  /** Email: missing when blank; otherwise invalid exactly when the untrimmed
      text is not in the language of the address pattern. */
  lemma EmailRule(f: Form, arabic: bool, role: Role)
    ensures Email in ValidateForm(f, arabic, role) <==>
              AllWhitespace(f.email) || !MatchesEmailPattern(f.email)
    ensures Email in ValidateForm(f, arabic, role) ==>
              ValidateForm(f, arabic, role)[Email].rule ==
                (if AllWhitespace(f.email) then Required else InvalidEmail)
  {
    ValidateFormMeetsRules(f, arabic, role, Email);
  }

  /** Phone: missing when blank; otherwise too short exactly when fewer than
      ten decimal digits remain once every other character is deleted. */
  lemma PhoneRule(f: Form, arabic: bool, role: Role)
    ensures Phone in ValidateForm(f, arabic, role) <==>
              AllWhitespace(f.phone) || |DigitsOnly(f.phone)| < 10
    ensures Phone in ValidateForm(f, arabic, role) ==>
              ValidateForm(f, arabic, role)[Phone].rule ==
                (if AllWhitespace(f.phone) then Required else TooFewDigits)
  {
    ValidateFormMeetsRules(f, arabic, role, Phone);
  }

  /** Inserting characters other than digits anywhere into a phone number
      never changes whether it is reported: punctuation and spacing do not
      count. */
  lemma PhoneIgnoresPunctuation(f: Form, arabic: bool, role: Role, a: string, p: string, b: string)
    requires f.phone == a + b
    requires forall i :: 0 <= i < |p| ==> !IsDigit(p[i])
    ensures var g := f.(phone := a + p + b);
      (Phone in ValidateForm(g, arabic, role) <==> Phone in ValidateForm(f, arabic, role))
  {
    var g := f.(phone := a + p + b);
    DigitsOnlyAppend(a + p, b);
    DigitsOnlyAppend(a, p);
    DigitsOnlyAppend(a, b);
    DigitsOnlyOfNonDigits(p);
    assert DigitsOnly(a + p) == DigitsOnly(a);
    PhoneRule(f, arabic, role);
    PhoneRule(g, arabic, role);
    if AllWhitespace(a + b) {
      // a blank number has no digits, so it is reported either way
      DigitsOnlyOfNonDigits(a + b);
    } else {
      assert !AllWhitespace(a + p + b) by {
        var i :| 0 <= i < |a + b| && !IsWhitespace((a + b)[i]);
        if i < |a| {
          assert (a + p + b)[i] == (a + b)[i];
        } else {
          assert (a + p + b)[i + |p|] == (a + b)[i];
        }
      }
    }
  }

  /** A number written with brackets, a space and a dash passes: its ten
      digits are all that is counted. */
  lemma PhoneExampleWithPunctuation(f: Form, arabic: bool, role: Role)
    requires f.phone == "(555) 123-4567"
    ensures Phone !in ValidateForm(f, arabic, role)
  {
    var head, tail := "(555) ", "123-4567";
    assert f.phone == head + tail;
    DigitsOnlyAppend(head, tail);
    DigitsOnlyAppend("(555", ") ");
    assert head == "(555" + ") ";
    DigitsOnlyAppend("123", "-4567");
    assert tail == "123" + "-4567";
    assert |DigitsOnly(f.phone)| == 10;
    assert !IsWhitespace(f.phone[0]);
    PhoneRule(f, arabic, role);
  }

  /** Password: missing when empty, too short when its JavaScript length is
      below six. It is not trimmed, so six spaces are accepted. */
  lemma PasswordRule(f: Form, arabic: bool, role: Role)
    ensures Password in ValidateForm(f, arabic, role) <==>
              f.password == [] || Utf16Length(f.password) < 6
    ensures Password in ValidateForm(f, arabic, role) ==>
              ValidateForm(f, arabic, role)[Password].rule ==
                (if f.password == [] then Required else TooShort)
    ensures f.password == "      " ==> Password !in ValidateForm(f, arabic, role)
  {
    ValidateFormMeetsRules(f, arabic, role, Password);
    ExpectedByField(f);
    if f.password == "      " {
      Utf16LengthBmp(f.password);
    }
  }

  /** Confirmation: missing when empty, otherwise reported exactly when it
      differs from the password in any character, whether or not the
      password itself is acceptable. */
  lemma ConfirmPasswordRule(f: Form, arabic: bool, role: Role)
    ensures ConfirmPassword in ValidateForm(f, arabic, role) <==>
              f.confirmPassword == [] || f.confirmPassword != f.password
    ensures ConfirmPassword in ValidateForm(f, arabic, role) ==>
              ValidateForm(f, arabic, role)[ConfirmPassword].rule ==
                (if f.confirmPassword == [] then Required else Mismatch)
  {
    ValidateFormMeetsRules(f, arabic, role, ConfirmPassword);
    ExpectedByField(f);
  }
}
