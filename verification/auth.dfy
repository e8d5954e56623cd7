/** The sign-in dialog: a mock login that accepts anything, a sign-up form
    with two checks, and a guest login. */
module Auth {

  import opened Optional
  import opened Types

  /** The address every mock login carries. */
  const DemoAddress: Address := Address("123 Demo Street", "Mumbai", "Maharashtra", "400001", "India")

  /** Login accepts any credentials and returns the demo user with the
      entered email; the password is never looked at. */
  function Login(email: string, password: string): (u: User)
    ensures u.id == "1" && u.email == email
    ensures u.name == "Demo User" && u.phone == Some("+91 9876543210")
    ensures u.address == Some(DemoAddress)
  {
    User("1", "Demo User", email, Some("+91 9876543210"), Some(DemoAddress))
  }

  /** The password never influences the user a login produces. */
  lemma LoginIgnoresPassword(email: string, p1: string, p2: string)
    ensures Login(email, p1) == Login(email, p2)
    ensures Login(email, p1).id != GuestLogin().id
  {
  }

  datatype SignupForm = SignupForm(name: string, email: string, phone: string, password: string, confirmPassword: string)

  /** Why a sign-up is refused, in the order the checks run. */
  datatype SignupError = PasswordsDiffer | PasswordTooShort

  const MinPasswordLength: nat := 6

  /** Sign-up: the confirmation is checked first, then the length; an
      accepted form yields user `'2'` carrying exactly the form's name, email
      and phone, and no address. */
  function Signup(form: SignupForm): (r: Result<User, SignupError>)
    ensures r == Failure(PasswordsDiffer) <==> form.password != form.confirmPassword
    ensures r == Failure(PasswordTooShort) <==> form.password == form.confirmPassword && |form.password| < MinPasswordLength
    ensures r.Success? <==> form.password == form.confirmPassword && |form.password| >= MinPasswordLength
    ensures r.Success? ==> r.value == User("2", form.name, form.email, Some(form.phone), None)
  {
    if form.password != form.confirmPassword then Failure(PasswordsDiffer)
    else if |form.password| < MinPasswordLength then Failure(PasswordTooShort)
    else Success(User("2", form.name, form.email, Some(form.phone), None))
  }

  /** A short password that also mismatches is reported as a mismatch. */
  lemma MismatchReportedFirst(form: SignupForm)
    requires form.password != form.confirmPassword && |form.password| < MinPasswordLength
    ensures Signup(form) == Failure(PasswordsDiffer)
  {
  }

  /** Guest login always yields the same fixed user. */
  function GuestLogin(): (u: User)
    ensures u.id == "guest" && u.name == "Guest User" && u.email == "guest@yourchoice.com"
    ensures u.phone.None? && u.address.None?
  {
    User("guest", "Guest User", "guest@yourchoice.com", None, None)
  }
}
