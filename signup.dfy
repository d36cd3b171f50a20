/** The first signup step, `SignUpStep1`: which validation and alert messages
    are shown for the current field values and the flags its parent computes.
    Everything here is a Boolean condition over the component's props. */
module SignUp {

  /** The props the step reads (the setters and `nextSlide` are left out). */
  datatype Step1Props = Step1Props(
    name: string, date: string, email: string, password: string, confirmPassword: string,
    confirmAlert: bool, dateConfirm: bool, emailConfirm: bool, validatedEmail: bool,
    validatedText: string, validatedPassword: bool, validatedLoading: bool)

  /** Which messages the step renders. */
  datatype Step1Messages = Step1Messages(
    nicknameRule: bool,      // "※2~7자로 해주세요."
    nameMissing: bool,       // "닉네임(이름)을 입력해주세요."
    dateInvalid: bool,       // "※올바른 날짜를 입력해주세요"
    dateMissing: bool,       // "생년월일을 선택해주세요."
    emailTaken: bool,        // "이미 등록된 이메일 입니다."
    emailChecking: bool,     // "※중복 확인 중" with the spinner
    emailAvailable: bool,    // "사용가능한 이메일 입니다."
    emailMissing: bool,      // the empty-email alert
    emailMalformed: bool,    // the same text, shown when the format check fails
    passwordRule: bool,      // "※8~15자로 대소문자,숫자,특수문자를 포함하여야 합니다."
    passwordMismatch: bool)  // "패스워드가 일치하지 않습니다."

  /** JavaScript's `string.length`: UTF-16 code units, two for a character
      outside the Basic Multilingual Plane. */
  function Utf16Length(s: string): (n: nat)
    ensures n >= |s|
    ensures n == |s| <==> forall i :: 0 <= i < |s| ==> s[i] as int <= 0xFFFF
  {
    if s == [] then 0
    else
      assert forall i :: 1 <= i < |s| ==> s[i] == s[1..][i - 1];
      (if s[0] as int > 0xFFFF then 2 else 1) + Utf16Length(s[1..])
  }

  /** The two password fields agree and are not empty. */
  function IsMatch(password: string, confirmPassword: string): bool {
    password == confirmPassword && password != ""
  }

  /** The message conditions of the step. A string operand of `&&` is
      truthy exactly when it is not empty. */
  function Messages(p: Step1Props): Step1Messages {
    var nameLength := Utf16Length(p.name);
    Step1Messages(
      nicknameRule := nameLength < 2 || nameLength > 7,
      nameMissing := p.name == "" && p.confirmAlert,
      dateInvalid := p.dateConfirm,
      dateMissing := p.date == "" && p.confirmAlert,
      emailTaken := !p.validatedLoading && !p.validatedEmail,
      emailChecking := p.validatedText != "",
      emailAvailable := !p.validatedLoading && p.validatedEmail,
      emailMissing := p.email == "" && p.confirmAlert,
      emailMalformed := !p.emailConfirm,
      passwordRule := !p.validatedPassword,
      passwordMismatch := p.password != "" && p.confirmPassword != "" &&
                          !IsMatch(p.password, p.confirmPassword))
  }

  /** While the duplicate check runs neither e-mail verdict is shown;
      otherwise exactly one is, chosen by `validatedEmail`. */
  lemma EmailVerdict(p: Step1Props)
    ensures p.validatedLoading ==> !Messages(p).emailTaken && !Messages(p).emailAvailable
    ensures !p.validatedLoading ==>
      (Messages(p).emailTaken <==> !Messages(p).emailAvailable) &&
      (Messages(p).emailAvailable <==> p.validatedEmail)
    ensures Messages(p).emailChecking <==> p.validatedText != ""
  {
  }

  /** The mismatch alert is shown exactly when both passwords are filled in and differ. */
  lemma PasswordMismatch(p: Step1Props)
    ensures Messages(p).passwordMismatch <==>
      p.password != "" && p.confirmPassword != "" && p.password != p.confirmPassword
  {
  }

  /** Once both password fields are filled, exactly one of "match" and the
      mismatch alert holds; with either field empty there is neither. */
  lemma MatchOrMismatch(p: Step1Props)
    ensures p.password != "" && p.confirmPassword != "" ==>
      (IsMatch(p.password, p.confirmPassword) <==> !Messages(p).passwordMismatch)
    ensures p.password == "" || p.confirmPassword == "" ==> !Messages(p).passwordMismatch
  {
  }

  /** A nickname of 2 to 7 characters from the Basic Multilingual Plane (every
      Hangul syllable is one) passes the length rule. */
  lemma NicknameWithinBmp(p: Step1Props)
    requires forall i :: 0 <= i < |p.name| ==> p.name[i] as int <= 0xFFFF
    ensures !Messages(p).nicknameRule <==> 2 <= |p.name| <= 7
  {
  }

  /** A form filled in correctly shows exactly one message, that the e-mail is
      available: its name is 2 to 7 characters of the Basic Multilingual
      Plane, date and e-mail are filled in, every flag of the parent reports
      success, no duplicate check is pending and the two passwords match.
      Whether an alert has been requested makes no difference then. */
  lemma ValidFormShowsOnlyAvailable(p: Step1Props)
    requires 2 <= |p.name| <= 7 && forall i :: 0 <= i < |p.name| ==> p.name[i] as int <= 0xFFFF
    requires p.date != "" && p.email != ""
    requires !p.dateConfirm && p.emailConfirm && p.validatedPassword
    requires !p.validatedLoading && p.validatedEmail && p.validatedText == ""
    requires IsMatch(p.password, p.confirmPassword)
    ensures Messages(p) == Step1Messages(
      nicknameRule := false, nameMissing := false, dateInvalid := false, dateMissing := false,
      emailTaken := false, emailChecking := false, emailAvailable := true, emailMissing := false,
      emailMalformed := false, passwordRule := false, passwordMismatch := false)
  {
  }

  /** Requesting the alerts on an empty form shows the three missing-field
      alerts and the nickname rule, but no password mismatch. */
  lemma EmptyFormAlerts(p: Step1Props)
    requires p.name == "" && p.date == "" && p.email == "" && p.password == "" && p.confirmPassword == ""
    requires p.confirmAlert
    ensures Messages(p).nameMissing && Messages(p).dateMissing && Messages(p).emailMissing
    ensures Messages(p).nicknameRule && !Messages(p).passwordMismatch
  {
  }

  /** Requesting the alerts (`confirmAlert`) changes only the three
      missing-field alerts, and only for fields that are empty. */
  lemma ConfirmAlertOnlyFlagsEmpty(p: Step1Props)
    ensures var before, after := Messages(p.(confirmAlert := false)), Messages(p.(confirmAlert := true));
      !before.nameMissing && !before.dateMissing && !before.emailMissing &&
      after == before.(nameMissing := p.name == "", dateMissing := p.date == "", emailMissing := p.email == "")
  {
  }
}
