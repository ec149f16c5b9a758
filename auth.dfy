/**
 * The authentication service: the format checks on SIAPE/CPF numbers and
 * birth dates, the registration and login-form checks, the clean-up of
 * registration data, the password rules and the identity an access token
 * carries.
 *
 * Forms are the string fields of a request body as `data.get(key, '')` reads
 * them: a missing key reads as "".
 */
module Auth {
  import opened Wrappers
  import opened Models
  import opened Text

  type Form = map<string, string>

  /** `data.get(key, '')`. */
  function Field(form: Form, key: string): (v: string)
    ensures key !in form ==> v == ""
    ensures key in form ==> v == form[key]
  {
    if key in form then form[key] else ""
  }

  /** `data.get(key, '').strip()`. */
  function Cleaned(form: Form, key: string): string {
    Strip(Field(form, key))
  }

  /** The `(bool, message)` pair the single-message validators return. */
  datatype Verdict = Verdict(ok: bool, message: string)

  const SiapeOrCpfRequired: string := "SIAPE ou CPF é obrigatório"
  const SiapeOnlyDigits: string := "SIAPE deve conter apenas números"
  const CpfOnlyDigits: string := "CPF deve conter apenas números"
  const CpfInvalid: string := "CPF inválido"
  const SiapeOrCpfLength: string := "SIAPE deve ter 7 dígitos ou CPF deve ter 11 dígitos"

  // ---------------------------------------------------------------------------
  // SIAPE or CPF
  // ---------------------------------------------------------------------------

  /**
   * `validate_siape_or_cpf`: the digits of the stripped value must number 7
   * (a SIAPE) or 11 (a CPF) and a CPF may not repeat one digit eleven times.
   * The `isdigit` tests on the digits can never fail, so their messages are
   * never returned.
   */
  function ValidateSiapeOrCpf(value: string): (r: Verdict)
    ensures r.message != SiapeOnlyDigits && r.message != CpfOnlyDigits
  {
    if value == "" then Verdict(false, SiapeOrCpfRequired)
    else
      var clean := KeepDigits(Strip(value));
      if |clean| == 7 then
        if !IsDigitString(clean) then Verdict(false, SiapeOnlyDigits) else Verdict(true, "SIAPE válido")
      else if |clean| == 11 then
        if !IsDigitString(clean) then Verdict(false, CpfOnlyDigits)
        else if clean == seq(11, _ => clean[0]) then Verdict(false, CpfInvalid)
        else Verdict(true, "CPF válido")
      else Verdict(false, SiapeOrCpfLength)
  }

  /**
   * A value is accepted exactly when its digits number 7, or number 11 and are
   * not all the same digit; no CPF check digit is computed.
   */
  lemma {:induction false} SiapeOrCpfAccepted(value: string)
    ensures var d := KeepDigits(value); var r := ValidateSiapeOrCpf(value);
      (r.ok <==> |d| == 7 || (|d| == 11 && exists i :: 0 < i < 11 && d[i] != d[0])) &&
      (r.ok ==> r.message == if |d| == 7 then "SIAPE válido" else "CPF válido")
  {
    KeepDigitsStrip(value);
    var d := KeepDigits(value);
    if |d| == 11 {
      if d == seq(11, _ => d[0]) {
        forall i | 0 < i < 11 ensures d[i] == d[0] {
          assert d[i] == seq(11, _ => d[0])[i];
        }
      } else {
        assert !(forall i :: 0 < i < 11 ==> d[i] == d[0]);
      }
    }
  }

  /** Surrounding white space holds no digits, so stripping does not change the digits. */
  lemma {:induction false} KeepDigitsStrip(s: string)
    ensures KeepDigits(Strip(s)) == KeepDigits(s)
  {
    StripShape(s);
    var r, i := Strip(s), StripStart(s);
    assert s == s[..i] + r + s[i + |r|..];
    KeepDigitsConcat(s[..i] + r, s[i + |r|..]);
    KeepDigitsConcat(s[..i], r);
    KeepDigitsSpace(s[..i]);
    KeepDigitsSpace(s[i + |r|..]);
  }

  lemma {:induction false} KeepDigitsConcat(a: string, b: string)
    ensures KeepDigits(a + b) == KeepDigits(a) + KeepDigits(b)
  {
    if b == [] {
      assert a + b == a;
    } else {
      KeepDigitsConcat(a, b[..|b| - 1]);
      assert (a + b)[..|a + b| - 1] == a + b[..|b| - 1];
    }
  }

  lemma {:induction false} KeepDigitsSpace(s: string)
    requires AllSpace(s)
    ensures KeepDigits(s) == ""
  {
    if s != [] {
      KeepDigitsSpace(s[..|s| - 1]);
    }
  }

  // ---------------------------------------------------------------------------
  // Birth date
  // ---------------------------------------------------------------------------

  const BirthdateRequired: string := "Data de nascimento é obrigatória"
  const BirthdateLength: string := "Data de nascimento deve ter 8 dígitos (DDMMAAAA)"
  const DayInvalid: string := "Dia inválido na data de nascimento"
  const MonthInvalid: string := "Mês inválido na data de nascimento"
  const YearInvalid: string := "Ano inválido na data de nascimento"

  /** `re.fullmatch(r'\d{8}', s)`. */
  predicate EightDigits(s: string) {
    |s| == 8 && AllDigits(s)
  }

  /**
   * `validate_birthdate`: eight digits DDMMAAAA, then the day, the month and
   * the year are range-checked in that order; the day is not checked against
   * the length of the month.
   */
  function ValidateBirthdate(value: string): (r: Verdict)
  {
    if value == "" then Verdict(false, BirthdateRequired)
    else
      var b := Strip(value);
      if !EightDigits(b) then Verdict(false, BirthdateLength)
      else
        DigitSlice(b, 0, 2);
        DigitSlice(b, 2, 4);
        DigitSlice(b, 4, 8);
        assert b[..2] == b[0..2] && b[4..] == b[4..8];
        if !(1 <= DigitsValue(b[..2]) <= 31) then Verdict(false, DayInvalid)
        else if !(1 <= DigitsValue(b[2..4]) <= 12) then Verdict(false, MonthInvalid)
        else if !(1900 <= DigitsValue(b[4..]) <= 2020) then Verdict(false, YearInvalid)
        else Verdict(true, "Data de nascimento válida")
  }

  lemma {:induction false} DigitSlice(s: string, i: nat, j: nat)
    requires AllDigits(s) && i <= j <= |s|
    ensures AllDigits(s[i..j])
  {
    forall k | 0 <= k < j - i ensures IsDigit(s[i..j][k]) {
      assert s[i..j][k] == s[i + k];
    }
  }

  function Pow10(k: nat): (p: nat)
    ensures p >= 1
  {
    if k == 0 then 1 else 10 * Pow10(k - 1)
  }

  /** `n` written with exactly `k` digits, with leading zeros (`f'{n:0kd}'` for `n < 10^k`). */
  function Padded(n: nat, k: nat): (s: string)
    ensures |s| == k && AllDigits(s)
  {
    if k == 0 then "" else Padded(n / 10, k - 1) + [DigitChar(n % 10)]
  }

  lemma {:induction false} PaddedValue(n: nat, k: nat)
    requires n < Pow10(k)
    ensures DigitsValue(Padded(n, k)) == n
  {
    if k > 0 {
      PaddedValue(n / 10, k - 1);
      var s := Padded(n, k);
      assert s[..|s| - 1] == Padded(n / 10, k - 1);
    }
  }

  /** A string of digits is its own value written with as many digits. */
  lemma {:induction false} PaddedOfDigits(s: string)
    requires AllDigits(s)
    ensures Padded(DigitsValue(s), |s|) == s
  {
    if s != [] {
      var init := s[..|s| - 1];
      PaddedOfDigits(init);
      var n := DigitsValue(s);
      assert n / 10 == DigitsValue(init) && n % 10 == DigitValue(s[|s| - 1]);
      assert s == init + [s[|s| - 1]];
    }
  }

  /** The text DDMMAAAA of a date. */
  function BirthdateText(day: nat, month: nat, year: nat): (s: string)
    ensures EightDigits(s)
  {
    Padded(day, 2) + Padded(month, 2) + Padded(year, 4)
  }

  predicate DateInRange(day: nat, month: nat, year: nat) {
    1 <= day <= 31 && 1 <= month <= 12 && 1900 <= year <= 2020
  }

  /**
   * A birth date is accepted exactly when, once stripped, it is the DDMMAAAA
   * text of a day 1..31, a month 1..12 and a year 1900..2020.
   */
  lemma {:induction false} BirthdateAccepted(value: string)
    ensures ValidateBirthdate(value).ok <==>
      exists day: nat, month: nat, year: nat :: DateInRange(day, month, year) && Strip(value) == BirthdateText(day, month, year)
  {
    var b := Strip(value);
    if ValidateBirthdate(value).ok {
      var day, month, year := DigitsValue(b[..2]), DigitsValue(b[2..4]), DigitsValue(b[4..]);
      PaddedOfDigits(b[..2]);
      PaddedOfDigits(b[2..4]);
      PaddedOfDigits(b[4..]);
      assert b == b[..2] + b[2..4] + b[4..];
      assert DateInRange(day, month, year) && b == BirthdateText(day, month, year);
    }
    if exists day: nat, month: nat, year: nat :: DateInRange(day, month, year) && b == BirthdateText(day, month, year) {
      var day: nat, month: nat, year: nat :| DateInRange(day, month, year) && b == BirthdateText(day, month, year);
      DateTextAccepted(value, day, month, year);
    }
  }

  lemma {:induction false} DateTextAccepted(value: string, day: nat, month: nat, year: nat)
    requires DateInRange(day, month, year) && Strip(value) == BirthdateText(day, month, year)
    ensures ValidateBirthdate(value).ok
  {
    var b := Strip(value);
    assert value != "";
    assert Pow10(2) == 100;
    assert Pow10(4) == 10000 by {
      assert Pow10(3) == 1000;
    }
    PaddedValue(day, 2);
    PaddedValue(month, 2);
    PaddedValue(year, 4);
    assert b[..2] == Padded(day, 2);
    assert b[2..4] == Padded(month, 2);
    assert b[4..] == Padded(year, 4);
  }

  /** Day 31 is accepted in every month, 31 February included: the day is not checked against the month. */
  lemma {:induction false} NoMonthLengthCheck(month: nat, year: nat)
    requires 1 <= month <= 12 && 1900 <= year <= 2020
    ensures ValidateBirthdate(BirthdateText(31, month, year)).ok
  {
    var b := BirthdateText(31, month, year);
    assert IsDigit(b[0]) && IsDigit(b[|b| - 1]);
    TrimLeftNoSpace(b);
    TrimRightNoSpace(b);
    DateTextAccepted(b, 31, month, year);
  }

  // ---------------------------------------------------------------------------
  // Registration
  // ---------------------------------------------------------------------------

  const MissingFields: string := "Dados obrigatórios faltando"
  const RegistrationBirthdate: string := "A data de nascimento deve conter 8 dígitos (DDMMAAAA)"
  const DuplicateSiapeOrCpf: string := "SIAPE ou CPF já cadastrado"

  /** The cleaned fields of an accepted registration. */
  datatype Registration = Registration(name: string, siapeOrCpf: string, birthdate: string, area: string, subareas: string)

  /** `(True, data)` or `(False, errors)`. */
  datatype RegistrationCheck = Registered(data: Registration) | Refused(errors: seq<string>)

  /** `Evaluator.query.filter_by(siape_or_cpf=...).first()`: an exact, case-sensitive match. */
  function FindBySiapeOrCpf(evaluators: seq<Evaluator>, siapeOrCpf: string): (r: Option<Evaluator>)
    ensures r.Some? ==> r.value in evaluators && r.value.siapeOrCpf == siapeOrCpf
    ensures r.None? ==> forall i :: 0 <= i < |evaluators| ==> evaluators[i].siapeOrCpf != siapeOrCpf
  {
    if evaluators == [] then None
    else if evaluators[0].siapeOrCpf == siapeOrCpf then Some(evaluators[0])
    else
      var r := FindBySiapeOrCpf(evaluators[1..], siapeOrCpf);
      assert r.None? ==> forall i :: 1 <= i < |evaluators| ==> evaluators[i].siapeOrCpf != siapeOrCpf by {
        if r.None? {
          forall i | 1 <= i < |evaluators| ensures evaluators[i].siapeOrCpf != siapeOrCpf {
            assert evaluators[1..][i - 1] == evaluators[i];
          }
        }
      }
      r
  }

  /**
   * `validate_evaluator_registration`: name, SIAPE/CPF, birth date and area are
   * required once stripped, the birth date must be eight digits (no range
   * check here) and the SIAPE/CPF must not be registered yet; the subareas are
   * optional.
   */
  function RegistrationOf(evaluators: seq<Evaluator>, form: Form): RegistrationCheck {
    var name := Cleaned(form, "name");
    var siapeOrCpf := Cleaned(form, "siape_or_cpf");
    var birthdate := Cleaned(form, "birthdate");
    var area := Cleaned(form, "area");
    var subareas := Cleaned(form, "subareas");
    if name == "" || siapeOrCpf == "" || birthdate == "" || area == "" then Refused([MissingFields])
    else if !EightDigits(birthdate) then Refused([RegistrationBirthdate])
    else if FindBySiapeOrCpf(evaluators, siapeOrCpf).Some? then Refused([DuplicateSiapeOrCpf])
    else Registered(Registration(name, siapeOrCpf, birthdate, area, subareas))
  }

  /** `validate_evaluator_registration`, which collects its one error in a list. */
  method ValidateEvaluatorRegistration(db: Database, form: Form) returns (r: RegistrationCheck)
    ensures r == RegistrationOf(db.evaluators, form)
  {
    var errors: seq<string> := [];
    var name := Cleaned(form, "name");
    var siapeOrCpf := Cleaned(form, "siape_or_cpf");
    var birthdate := Cleaned(form, "birthdate");
    var area := Cleaned(form, "area");
    var subareas := Cleaned(form, "subareas");
    if name == "" || siapeOrCpf == "" || birthdate == "" || area == "" {
      errors := errors + [MissingFields];
      return Refused(errors);
    }
    if !EightDigits(birthdate) {
      errors := errors + [RegistrationBirthdate];
      return Refused(errors);
    }
    var existing := FindBySiapeOrCpf(db.evaluators, siapeOrCpf);
    if existing.Some? {
      errors := errors + [DuplicateSiapeOrCpf];
      return Refused(errors);
    }
    return Registered(Registration(name, siapeOrCpf, birthdate, area, subareas));
  }

  /**
   * A registration is accepted exactly when the four required fields are
   * non-blank, the birth date is eight digits and no evaluator holds the
   * SIAPE/CPF; the accepted values are the stripped fields, and a refusal
   * carries one of the three messages.
   */
  lemma {:induction false} RegistrationAccepted(evaluators: seq<Evaluator>, form: Form)
    ensures var r := RegistrationOf(evaluators, form);
      var siapeOrCpf := Cleaned(form, "siape_or_cpf");
      (r.Registered? <==>
        Cleaned(form, "name") != "" && siapeOrCpf != "" && Cleaned(form, "area") != "" &&
        EightDigits(Cleaned(form, "birthdate")) &&
        forall i :: 0 <= i < |evaluators| ==> evaluators[i].siapeOrCpf != siapeOrCpf) &&
      (r.Registered? ==>
        r.data.name == Cleaned(form, "name") && r.data.siapeOrCpf == siapeOrCpf &&
        r.data.birthdate == Cleaned(form, "birthdate") && r.data.area == Cleaned(form, "area") &&
        r.data.subareas == Cleaned(form, "subareas") &&
        Strip(r.data.name) == r.data.name && Strip(r.data.siapeOrCpf) == r.data.siapeOrCpf &&
        Strip(r.data.area) == r.data.area && Strip(r.data.subareas) == r.data.subareas) &&
      (r.Refused? ==> r.errors == [MissingFields] || r.errors == [RegistrationBirthdate] || r.errors == [DuplicateSiapeOrCpf])
  {
    StripIdempotent(Field(form, "name"));
    StripIdempotent(Field(form, "siape_or_cpf"));
    StripIdempotent(Field(form, "area"));
    StripIdempotent(Field(form, "subareas"));
  }

  /** The id the database gives a new evaluator: one past the largest id, 1 for an empty table. */
  function NextEvaluatorId(evaluators: seq<Evaluator>): (id: int)
    ensures forall i :: 0 <= i < |evaluators| ==> evaluators[i].id < id
  {
    if evaluators == [] then 1
    else
      var init := NextEvaluatorId(evaluators[..|evaluators| - 1]);
      var last := evaluators[|evaluators| - 1].id + 1;
      if init >= last then init else last
  }

  /** The row `create_evaluator` inserts for an accepted registration. */
  function RegisteredEvaluator(evaluators: seq<Evaluator>, data: Registration): Evaluator {
    NewEvaluator(NextEvaluatorId(evaluators), data.name, data.siapeOrCpf, data.birthdate, data.area, data.subareas)
  }

  /** `create_evaluator`: appends the evaluator, with no password and a zero load. */
  method CreateEvaluator(db: Database, data: Registration) returns (e: Evaluator)
    modifies db`evaluators
    ensures e == RegisteredEvaluator(old(db.evaluators), data)
    ensures db.evaluators == old(db.evaluators) + [e]
  {
    e := RegisteredEvaluator(db.evaluators, data);
    db.evaluators := db.evaluators + [e];
  }

  /**
   * Creating the evaluator of an accepted registration keeps ids and
   * SIAPE/CPF values unique, and the same registration is then refused as a
   * duplicate.
   */
  lemma {:induction false} RegistrationKeepsEvaluatorsValid(evaluators: seq<Evaluator>, form: Form)
    requires EvaluatorsValid(evaluators) && RegistrationOf(evaluators, form).Registered?
    ensures var evaluators' := evaluators + [RegisteredEvaluator(evaluators, RegistrationOf(evaluators, form).data)];
      EvaluatorsValid(evaluators') && RegistrationOf(evaluators', form) == Refused([DuplicateSiapeOrCpf])
  {
    var data := RegistrationOf(evaluators, form).data;
    var e := RegisteredEvaluator(evaluators, data);
    var evaluators' := evaluators + [e];
    assert evaluators'[|evaluators|] == e;
    var found := FindBySiapeOrCpf(evaluators', data.siapeOrCpf);
    assert found.Some?;
  }

  // ---------------------------------------------------------------------------
  // Sanitising registration data
  // ---------------------------------------------------------------------------

  /** `sanitize_evaluator_data`: every field present and stripped, the name title-cased. */
  function SanitizeEvaluatorData(form: Form): (r: Registration)
  {
    Registration(
      Title(Cleaned(form, "name")),
      Cleaned(form, "siape_or_cpf"),
      Cleaned(form, "birthdate"),
      Cleaned(form, "area"),
      Cleaned(form, "subareas"))
  }

  /** The sanitised data as a form again. */
  function AsForm(r: Registration): Form {
    map["name" := r.name, "siape_or_cpf" := r.siapeOrCpf, "birthdate" := r.birthdate, "area" := r.area, "subareas" := r.subareas]
  }

  /**
   * Sanitising is idempotent: sanitising sanitised data changes nothing, the
   * title-cased name included (for the Latin-1 characters the model covers).
   */
  lemma {:induction false} SanitizeIdempotent(form: Form)
    ensures SanitizeEvaluatorData(AsForm(SanitizeEvaluatorData(form))) == SanitizeEvaluatorData(form)
  {
    var r := SanitizeEvaluatorData(form);
    var f := AsForm(r);
    assert Field(f, "name") == r.name && Field(f, "siape_or_cpf") == r.siapeOrCpf && Field(f, "birthdate") == r.birthdate;
    assert Field(f, "area") == r.area && Field(f, "subareas") == r.subareas;
    StripIdempotent(Field(form, "siape_or_cpf"));
    StripIdempotent(Field(form, "birthdate"));
    StripIdempotent(Field(form, "area"));
    StripIdempotent(Field(form, "subareas"));
    var t := Cleaned(form, "name");
    StripIdempotent(Field(form, "name"));
    TitleKeepsStripped(t);
    TitleIdempotent(t);
  }

  /** Case mapping neither creates nor removes white space, so a stripped text stays stripped when title-cased. */
  lemma {:induction false} TitleKeepsStripped(t: string)
    requires Strip(t) == t
    ensures Strip(Title(t)) == Title(t)
  {
    StripShape(t);
    var u := Title(t);
    if t != "" {
      CaseOfChar(t[0]);
      CaseOfChar(t[|t| - 1]);
      TitleChar(t, 0);
      TitleChar(t, |t| - 1);
    }
    TrimLeftNoSpace(u);
    TrimRightNoSpace(u);
  }

  /** Title-casing twice is title-casing once. */
  lemma {:induction false} TitleIdempotent(t: string)
    ensures Title(Title(t)) == Title(t)
  {
    var u := Title(t);
    var v := Title(u);
    forall i | 0 <= i < |t| ensures v[i] == u[i] {
      CaseOfChar(t[i]);
      TitleChar(t, i);
      TitleChar(u, i);
      if i > 0 {
        CaseOfChar(t[i - 1]);
        TitleChar(t, i - 1);
      }
    }
  }

  /** Each character of a title-cased text is the original character, upper- or lower-cased by what precedes it. */
  lemma {:induction false} TitleChar(t: string, i: nat)
    requires i < |t|
    ensures |Title(t)| == |t|
    ensures Title(t)[i] == if i > 0 && IsCased(t[i - 1]) then Lower(t[i]) else Upper(t[i])
  {
  }

  /** Upper- and lower-casing keep a character cased or uncased and white space or not, and are idempotent. */
  lemma {:induction false} CaseOfChar(c: char)
    ensures IsCased(Upper(c)) == IsCased(c) && IsCased(Lower(c)) == IsCased(c)
    ensures IsSpace(Upper(c)) == IsSpace(c) && IsSpace(Lower(c)) == IsSpace(c)
    ensures Upper(Upper(c)) == Upper(c) && Lower(Lower(c)) == Lower(c)
  {
  }

  // ---------------------------------------------------------------------------
  // Login form
  // ---------------------------------------------------------------------------

  const PasswordRequired: string := "Senha é obrigatória"
  const LoginRequired: string := "Login é obrigatório"
  const InvalidUserType: string := "Tipo de usuário inválido"

  /**
   * The errors `validate_login_credentials` collects: the identifier is
   * stripped before its test, the password is not.
   */
  function LoginErrors(form: Form, userType: string): seq<string> {
    if userType == "evaluator" then
      (if Cleaned(form, "siape_or_cpf") == "" then [SiapeOrCpfRequired] else []) +
      (if Field(form, "password") == "" then [PasswordRequired] else [])
    else if userType == "admin" then
      (if Cleaned(form, "login") == "" then [LoginRequired] else []) +
      (if Field(form, "password") == "" then [PasswordRequired] else [])
    else [InvalidUserType]
  }

  /** `validate_login_credentials`: appends an error per missing field and succeeds when there is none. */
  method ValidateLoginCredentials(form: Form, userType: string) returns (ok: bool, errors: seq<string>)
    ensures errors == LoginErrors(form, userType)
    ensures ok <==> errors == []
  {
    errors := [];
    if userType == "evaluator" {
      var siapeOrCpf := Cleaned(form, "siape_or_cpf");
      var password := Field(form, "password");
      if siapeOrCpf == "" {
        errors := errors + [SiapeOrCpfRequired];
      }
      if password == "" {
        errors := errors + [PasswordRequired];
      }
      return |errors| == 0, errors;
    } else if userType == "admin" {
      var login := Cleaned(form, "login");
      var password := Field(form, "password");
      if login == "" {
        errors := errors + [LoginRequired];
      }
      if password == "" {
        errors := errors + [PasswordRequired];
      }
      return |errors| == 0, errors;
    } else {
      return false, [InvalidUserType];
    }
  }

  /**
   * An evaluator login needs a non-blank SIAPE/CPF and a non-empty password, an
   * admin login a non-blank login and a non-empty password; each missing field
   * has its own error and both are reported together, identifier first. Any
   * other user type gets the one type error.
   */
  lemma {:induction false} LoginErrorsMeaning(form: Form, userType: string)
    ensures var errors := LoginErrors(form, userType);
      var id := if userType == "evaluator" then Cleaned(form, "siape_or_cpf") else Cleaned(form, "login");
      var idError := if userType == "evaluator" then SiapeOrCpfRequired else LoginRequired;
      var password := Field(form, "password");
      (userType == "evaluator" || userType == "admin" ==>
        (errors == [] <==> id != "" && password != "") &&
        (idError in errors <==> id == "") &&
        (PasswordRequired in errors <==> password == "") &&
        |errors| <= 2 && (|errors| == 2 ==> errors[0] == idError)) &&
      (userType != "evaluator" && userType != "admin" ==> errors == [InvalidUserType])
  {
    assert SiapeOrCpfRequired != PasswordRequired by {
      assert SiapeOrCpfRequired[1] != PasswordRequired[1];
    }
    assert LoginRequired != PasswordRequired by {
      assert LoginRequired[0] != PasswordRequired[0];
    }
  }

  // ---------------------------------------------------------------------------
  // Passwords
  // ---------------------------------------------------------------------------

  const PasswordTooShort: string := "Senha deve ter pelo menos 6 caracteres"
  const PasswordsRequired: string := "Senha atual e nova senha são obrigatórias"
  const NewPasswordTooShort: string := "A nova senha deve ter pelo menos 6 caracteres"
  const WrongCurrentPassword: string := "Senha atual incorreta"

  /** `is_password_strong`: at least six characters. */
  function IsPasswordStrong(password: string): (r: Verdict)
    ensures r.ok <==> |password| >= 6
  {
    if |password| < 6 then Verdict(false, PasswordTooShort) else Verdict(true, "Senha válida")
  }

  /**
   * Whether `password` is the evaluator's current password: checked against
   * the stored hash by `checkHash` (werkzeug's `check_password_hash`) when
   * there is a non-empty hash, otherwise compared with the birth date.
   */
  function PasswordMatches(e: Evaluator, password: string, checkHash: (string, string) -> bool): bool {
    if e.passwordHash.Some? && e.passwordHash.value != "" then checkHash(e.passwordHash.value, password)
    else e.birthdate == password
  }

  /** `(True, None)` or `(False, errors)`. */
  datatype PasswordChange = ChangeAccepted | ChangeRefused(errors: seq<string>)

  /**
   * `validate_password_change`: both passwords present, the new one at least
   * six characters, the current one matching. A missing field (None) and an
   * empty one take the same branch, so both are "" here.
   */
  function ValidatePasswordChange(e: Evaluator, current: string, newPassword: string, checkHash: (string, string) -> bool): (r: PasswordChange) {
    if current == "" || newPassword == "" then ChangeRefused([PasswordsRequired])
    else if |newPassword| < 6 then ChangeRefused([NewPasswordTooShort])
    else if !PasswordMatches(e, current, checkHash) then ChangeRefused([WrongCurrentPassword])
    else ChangeAccepted
  }

  /**
   * A change is accepted exactly when both passwords are given, the new one
   * is strong and the current one matches; so every accepted new password is
   * one `is_password_strong` accepts too. An evaluator who never set a
   * password proves who they are with their birth date.
   */
  lemma {:induction false} PasswordChangeAccepted(e: Evaluator, current: string, newPassword: string, checkHash: (string, string) -> bool)
    ensures ValidatePasswordChange(e, current, newPassword, checkHash).ChangeAccepted? <==>
      current != "" && IsPasswordStrong(newPassword).ok && PasswordMatches(e, current, checkHash)
    ensures e.passwordHash.None? ==> (PasswordMatches(e, current, checkHash) <==> current == e.birthdate)
    ensures current != "" && newPassword != "" && |newPassword| < 6 ==>
      ValidatePasswordChange(e, current, newPassword, checkHash) == ChangeRefused([NewPasswordTooShort]) && !IsPasswordStrong(newPassword).ok
  {
  }

  /** The evaluators after `change_evaluator_password`: the one with id `id` gets the new hash, nothing else changes. */
  function WithPasswordHash(evaluators: seq<Evaluator>, id: int, hash: string): (r: seq<Evaluator>)
    ensures |r| == |evaluators|
    ensures forall i :: 0 <= i < |r| ==>
      r[i] == if evaluators[i].id == id then evaluators[i].(passwordHash := Some(hash)) else evaluators[i]
  {
    if evaluators == [] then []
    else
      var e := evaluators[0];
      [if e.id == id then e.(passwordHash := Some(hash)) else e] + WithPasswordHash(evaluators[1..], id, hash)
  }

  /** `change_evaluator_password`; `hash` is what `generate_password_hash` made of the new password. */
  method ChangeEvaluatorPassword(db: Database, id: int, hash: string)
    modifies db`evaluators
    ensures db.evaluators == WithPasswordHash(old(db.evaluators), id, hash)
  {
    db.evaluators := WithPasswordHash(db.evaluators, id, hash);
  }

  /**
   * After a change, the evaluator's current password is the new one, as long
   * as the hash is not empty and the hash check accepts the password it was
   * made from.
   */
  lemma {:induction false} PasswordChangeTakesEffect(evaluators: seq<Evaluator>, id: int, newPassword: string, hash: string, checkHash: (string, string) -> bool)
    requires IsEvaluatorId(evaluators, id) && hash != "" && checkHash(hash, newPassword)
    ensures var e' := FindEvaluator(WithPasswordHash(evaluators, id, hash), id);
      e'.Some? && PasswordMatches(e'.value, newPassword, checkHash)
  {
    var r := WithPasswordHash(evaluators, id, hash);
    var i :| 0 <= i < |evaluators| && evaluators[i].id == id;
    assert r[i].id == id;
    var e := FindEvaluator(r, id).value;
    var k :| 0 <= k < |r| && r[k] == e;
    assert e.passwordHash == Some(hash);
  }

  /** Changing a password keeps ids and SIAPE/CPF values unique. */
  lemma {:induction false} PasswordChangeKeepsEvaluatorsValid(evaluators: seq<Evaluator>, id: int, hash: string)
    requires EvaluatorsValid(evaluators)
    ensures EvaluatorsValid(WithPasswordHash(evaluators, id, hash))
  {
    var r := WithPasswordHash(evaluators, id, hash);
    forall i, j | 0 <= i < j < |r| ensures r[i].id != r[j].id && r[i].siapeOrCpf != r[j].siapeOrCpf {
      assert r[i].id == evaluators[i].id && r[j].id == evaluators[j].id;
    }
  }

  // ---------------------------------------------------------------------------
  // Access-token identity
  // ---------------------------------------------------------------------------

  const AdminPrefix: string := "admin:"

  /**
   * The identity `generate_access_token` puts in a token: the decimal id of an
   * evaluator, `admin:` and the id for an admin, and a ValueError (None) for
   * any other role.
   */
  function TokenIdentity(id: int, role: string): (r: Option<string>)
    ensures r.None? <==> role != "evaluator" && role != "admin"
  {
    if role == "evaluator" then Some(Decimal(id))
    else if role == "admin" then Some(AdminPrefix + Decimal(id))
    else None
  }

  /**
   * Admin identities start with `admin:` and evaluator identities do not, and
   * an identity names one role and one id.
   */
  lemma {:induction false} TokenIdentityInjective(id1: int, role1: string, id2: int, role2: string)
    requires TokenIdentity(id1, role1).Some? && TokenIdentity(id1, role1) == TokenIdentity(id2, role2)
    ensures id1 == id2 && role1 == role2
  {
    var s := TokenIdentity(id1, role1).value;
    if role1 == "admin" {
      AdminIdentityPrefix(id1);
      if role2 == "evaluator" {
        EvaluatorIdentityPrefix(id2);
      }
      assert s[|AdminPrefix|..] == Decimal(id1);
      if role2 == "admin" {
        assert s[|AdminPrefix|..] == Decimal(id2);
      }
    } else {
      EvaluatorIdentityPrefix(id1);
      if role2 == "admin" {
        AdminIdentityPrefix(id2);
      }
    }
    DecimalInjective(id1, id2);
  }

  lemma {:induction false} AdminIdentityPrefix(id: int)
    ensures StartsWith(TokenIdentity(id, "admin").value, AdminPrefix)
  {
    var s := TokenIdentity(id, "admin").value;
    assert s[..|AdminPrefix|] == AdminPrefix;
  }

  lemma {:induction false} EvaluatorIdentityPrefix(id: int)
    ensures !StartsWith(TokenIdentity(id, "evaluator").value, AdminPrefix)
  {
    var s := Decimal(id);
    assert IsDigit(s[0]) || s[0] == '-';
    assert AdminPrefix[0] == 'a';
    if |AdminPrefix| <= |s| {
      assert s[..|AdminPrefix|][0] == s[0];
    }
  }

  /** `str(n)` names one integer. */
  lemma {:induction false} DecimalInjective(a: int, b: int)
    requires Decimal(a) == Decimal(b)
    ensures a == b
  {
    if a >= 0 && b >= 0 {
      DecimalRoundTrip(a);
      DecimalRoundTrip(b);
    } else if a < 0 && b < 0 {
      assert Decimal(a)[1..] == DecimalNat(-a);
      assert Decimal(b)[1..] == DecimalNat(-b);
      DecimalRoundTrip(-a);
      DecimalRoundTrip(-b);
    }
  }
}
