/** The React state of the login screen (screeens/Login.tsx, lines 36-42) and
    the small handlers that change it without any I/O: the two field editors,
    the password-visibility toggle and the submit button's enablement and label. */
module FormState {

  import opened Wrappers

  /** The credential form: both fields are always defined strings, empty at start. */
  datatype Form = Form(email: string, password: string)

  /** Everything the screen keeps in `useState`. */
  datatype Screen = Screen(form: Form, showPassword: bool, loading: bool, errorMessage: string)

  /** The label the submit button shows while a login is in flight. */
  const BusyLabel := "Logging in..."
  /** The label the submit button shows otherwise. */
  const IdleLabel := "Log in"

  /** The state the screen mounts with: empty fields, password hidden, idle, no error. */
  function Initial(): (s: Screen)
    ensures s.form.email == "" && s.form.password == ""
    ensures !s.showPassword && !s.loading && s.errorMessage == ""
  {
    Screen(Form("", ""), false, false, "")
  }

  /** Typing in the email field: `{ ...formData, email: text }`. */
  function SetEmail(s: Screen, text: string): (r: Screen)
    ensures r.form.email == text
    ensures r.form.password == s.form.password
    ensures r.showPassword == s.showPassword && r.loading == s.loading
    ensures r.errorMessage == s.errorMessage
  {
    s.(form := s.form.(email := text))
  }

  /** Typing in the password field: `{ ...formData, password: text }`. */
  function SetPassword(s: Screen, text: string): (r: Screen)
    ensures r.form.password == text
    ensures r.form.email == s.form.email
    ensures r.showPassword == s.showPassword && r.loading == s.loading
    ensures r.errorMessage == s.errorMessage
  {
    s.(form := s.form.(password := text))
  }

  /** The eye icon: flips the visibility flag and nothing else. */
  function TogglePassword(s: Screen): (r: Screen)
    ensures r.showPassword == !s.showPassword
    ensures r.form == s.form && r.loading == s.loading && r.errorMessage == s.errorMessage
  {
    s.(showPassword := !s.showPassword)
  }

  /** `disabled={loading}`: the submit button accepts a press only when idle. */
  predicate SubmitEnabled(s: Screen) {
    !s.loading
  }

  /** The submit button's text reflects whether a login is in flight. */
  function ButtonLabel(s: Screen): (r: string)
    ensures r == BusyLabel <==> !SubmitEnabled(s)
    ensures r == IdleLabel <==> SubmitEnabled(s)
  {
    if s.loading then BusyLabel else IdleLabel
  }

  /** `{errorMessage && <Text>…}`: the error line is rendered only when the
      message is a non-empty string. */
  function ErrorLine(s: Screen): (r: Option<string>)
    ensures r.Some? <==> s.errorMessage != ""
    ensures r.Some? ==> r.value == s.errorMessage
  {
    if s.errorMessage != "" then Some(s.errorMessage) else None
  }

  /** The mounted screen accepts a press, shows the idle label and no error line. */
  lemma InitialIsIdle()
    ensures SubmitEnabled(Initial())
    ensures ButtonLabel(Initial()) == IdleLabel
    ensures ErrorLine(Initial()) == None
  {
  }

  /** Toggling twice restores the screen. */
  lemma ToggleInvolution(s: Screen)
    ensures TogglePassword(TogglePassword(s)) == s
  {
  }

  /** The two field editors touch disjoint fields, so their order does not matter. */
  lemma EditsCommute(s: Screen, email: string, password: string)
    ensures SetEmail(SetPassword(s, password), email) == SetPassword(SetEmail(s, email), password)
  {
  }

  /** Each keystroke replaces the whole field: the last edit wins. */
  lemma LastEditWins(s: Screen, a: string, b: string)
    ensures SetEmail(SetEmail(s, a), b) == SetEmail(s, b)
    ensures SetPassword(SetPassword(s, a), b) == SetPassword(s, b)
  {
  }
}
