/** The sign-up form's client-side rules (frontend/src/pages/Register.tsx):
    the password-strength meter and the submit validator. Strings count
    characters where JavaScript counts UTF-16 code units. */
module RegisterForm {
  import opened Text

  predicate HasUpper(s: string) {
    exists i | 0 <= i < |s| :: 'A' <= s[i] <= 'Z'
  }

  predicate HasDigit(s: string) {
    exists i | 0 <= i < |s| :: '0' <= s[i] <= '9'
  }

  predicate IsAsciiAlphanumeric(c: char) {
    'A' <= c <= 'Z' || 'a' <= c <= 'z' || '0' <= c <= '9'
  }

  /** Some character lies outside `[A-Za-z0-9]`. */
  predicate HasSymbol(s: string) {
    exists i | 0 <= i < |s| :: !IsAsciiAlphanumeric(s[i])
  }

  function Point(b: bool): nat {
    if b then 1 else 0
  }

  /** `calculateStrength`: one point per criterion met (longer than 5,
      longer than 8, an upper-case letter, a digit, a symbol). */
  function Strength(password: string): (score: nat)
    ensures score <= 5
    ensures password == "" ==> score == 0
    ensures |password| >= 6 ==> score >= 1
  {
    Point(|password| > 5) + Point(|password| > 8)
    + Point(HasUpper(password)) + Point(HasDigit(password)) + Point(HasSymbol(password))
  }

  /** Typing one more character never lowers the score. */
  lemma {:induction false} StrengthGrowsWithAppend(password: string, c: char)
    ensures Strength(password + [c]) >= Strength(password)
  {
    var longer := password + [c];
    if HasUpper(password) {
      var i :| 0 <= i < |password| && 'A' <= password[i] <= 'Z';
      assert longer[i] == password[i];
    }
    if HasDigit(password) {
      var i :| 0 <= i < |password| && '0' <= password[i] <= '9';
      assert longer[i] == password[i];
    }
    if HasSymbol(password) {
      var i :| 0 <= i < |password| && !IsAsciiAlphanumeric(password[i]);
      assert longer[i] == password[i];
    }
  }

  const StrengthTexts: seq<string> := ["Empty", "Very Weak", "Weak", "Medium", "Strong", "Very Strong"]
  const StrengthColors: seq<string> := ["bg-slate-200", "bg-red-500", "bg-orange-500", "bg-yellow-500", "bg-green-500", "bg-emerald-600"]

  /** The meter's caption and colour: always an entry of the six-entry
      tables; "Empty" exactly when the score is 0. */
  datatype Meter = Meter(text: string, color: string)

  function StrengthLabel(password: string): (m: Meter)
    ensures m.text in StrengthTexts && m.color in StrengthColors
    ensures m.text == "Empty" <==> Strength(password) == 0
    ensures password == "" ==> m == Meter("Empty", "bg-slate-200")
  {
    Meter(StrengthTexts[Strength(password)], StrengthColors[Strength(password)])
  }

  /** No white space and no '@': the class `[^\s@]`. */
  predicate PlainRun(s: string) {
    forall i | 0 <= i < |s| :: !IsSpace(s[i]) && s[i] != '@'
  }

  /** `/^[^\s@]+@[^\s@]+\.[^\s@]+$/`: a non-empty run, '@', a non-empty run,
      '.', a non-empty run, where the runs hold neither white space nor '@'. */
  predicate EmailShape(s: string) {
    exists at, dot | 0 < at && at + 1 < dot && dot + 1 < |s| ::
      s[at] == '@' && s[dot] == '.'
      && PlainRun(s[..at]) && PlainRun(s[at + 1..dot]) && PlainRun(s[dot + 1..])
  }

  /** An accepted e-mail has no white space, exactly one '@' with text
      before it, and a '.' after it with text on both sides. */
  lemma {:induction false} EmailShapeFacts(s: string)
    requires EmailShape(s)
    ensures forall i | 0 <= i < |s| :: !IsSpace(s[i])
    ensures exists at | 0 < at < |s| ::
              && s[at] == '@'
              && (forall i | 0 <= i < |s| && s[i] == '@' :: i == at)
              && (exists dot | at + 1 < dot < |s| - 1 :: s[dot] == '.')
  {
    var at, dot :| 0 < at && at + 1 < dot && dot + 1 < |s|
      && s[at] == '@' && s[dot] == '.'
      && PlainRun(s[..at]) && PlainRun(s[at + 1..dot]) && PlainRun(s[dot + 1..]);
    forall i | 0 <= i < |s|
      ensures !IsSpace(s[i]) && (s[i] == '@' ==> i == at)
    {
      if i < at {
        assert s[i] == s[..at][i];
      } else if at < i < dot {
        assert s[i] == s[at + 1..dot][i - at - 1];
      } else if dot < i {
        assert s[i] == s[dot + 1..][i - dot - 1];
      }
    }
  }

  /** The messages `validate` sets; "" means no error. */
  datatype FormErrors = FormErrors(email: string, password: string, confirmPassword: string)

  datatype Validation = Validation(errors: FormErrors, ok: bool)

  /** `validate`: one message per failing rule; the form is submitted only
      when all three are clear. */
  function Validate(email: string, password: string, confirm: string): (v: Validation)
    ensures v.ok <==> EmailShape(email) && |password| >= 6 && password == confirm
    ensures v.errors.email == "" <==> EmailShape(email)
    ensures v.errors.password == "" <==> |password| >= 6
    ensures v.errors.confirmPassword == "" <==> password == confirm
  {
    var errors := FormErrors(
      if EmailShape(email) then "" else "Please enter a valid email.",
      if |password| < 6 then "Min 6 characters required." else "",
      if password != confirm then "Passwords do not match." else "");
    Validation(errors, errors.email == "" && errors.password == "" && errors.confirmPassword == "")
  }

  /** A password the form accepts shows at least "Very Weak". */
  lemma AcceptedPasswordIsNotEmpty(email: string, password: string, confirm: string)
    requires Validate(email, password, confirm).ok
    ensures StrengthLabel(password).text != "Empty"
  {
  }
}
