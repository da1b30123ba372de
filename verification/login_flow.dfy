/** The submit handler of the login screen (`handleLogin`, screeens/Login.tsx
    lines 46-111) as two steps split at the `await`: `Submit` is the
    synchronous guard and entry into loading, `Complete` is everything after
    the directory reply arrives. Each step returns the new screen state and
    the trace of outside effects it issued, in order. */
module LoginFlow {

  import opened Wrappers
  import opened FormState
  import opened Directory

  const MissingFieldsMessage := "Please enter both email and password."
  const GenericErrorMessage := "An error occurred. Please try again."
  const InvalidCredentialsMessage := "Invalid credentials. Please check your email and password."

  /** AsyncStorage keys of the two session entries. */
  const TokenKey := "authToken"
  const UserKey := "user"

  /** Navigator destinations. */
  const HomeScreen := "Homepage"
  const SignupScreen := "Signup"

  /** The result of `JSON.stringify`, kept symbolic: distinct values stay distinct. */
  datatype Serialized = JsonOfId(id: int) | JsonOfUser(user: User)

  /** An outside effect: the directory request, one storage write, one navigation. */
  datatype Effect =
    | Fetch
    | Write(key: string, value: Serialized)
    | Navigate(screen: string)

  /** Which `AsyncStorage.setItem` call, if any, rejects. */
  datatype WriteFault = NoFault | TokenWriteThrows | UserWriteThrows

  /** A step's outcome: the new screen state and the effects issued. */
  datatype Step = Step(state: Screen, trace: seq<Effect>)

  /** `!email || !password` is false: both strings are non-empty. A field
      holding only spaces is truthy and passes. */
  predicate Filled(f: Form) {
    f.email != "" && f.password != ""
  }

  function TokenWrite(u: User): Effect {
    Write(TokenKey, JsonOfId(u.id))
  }

  function UserWrite(u: User): Effect {
    Write(UserKey, JsonOfUser(u))
  }

  /** The effects of a fully successful login for `u`. */
  function SessionTrace(u: User): seq<Effect> {
    [TokenWrite(u), UserWrite(u), Navigate(HomeScreen)]
  }

  /** The number of navigations to `screen` in a trace. */
  function Navigations(t: seq<Effect>, screen: string): (n: nat)
    ensures n <= |t|
    ensures n == 0 <==> Navigate(screen) !in t
  {
    if |t| == 0 then 0
    else (if t[0] == Navigate(screen) then 1 else 0) + Navigations(t[1..], screen)
  }

  /** The part of `handleLogin` before the `await` (lines 47-54). */
  function Submit(s: Screen): (r: Step)
    ensures Fetch in r.trace <==> Filled(s.form)
    ensures !Filled(s.form) ==> r.trace == [] && r.state.loading == s.loading
    ensures !Filled(s.form) ==> r.state.errorMessage == MissingFieldsMessage
    ensures Filled(s.form) ==> r.trace == [Fetch] && r.state.loading && r.state.errorMessage == ""
    ensures r.state.form == s.form && r.state.showPassword == s.showPassword
  {
    if !Filled(s.form) then
      Step(s.(errorMessage := MissingFieldsMessage), [])
    else
      Step(s.(loading := true, errorMessage := ""), [Fetch])
  }

  /** The two awaited storage writes and the navigation (lines 98-102); a
      rejected write jumps to the `catch` (lines 105-107) with only the
      writes that completed in the trace. */
  function Persist(s: Screen, u: User, fault: WriteFault): (r: Step)
    ensures fault.NoFault? ==> r.trace == SessionTrace(u) && r.state == s
    ensures fault.TokenWriteThrows? ==> r.trace == []
    ensures fault.UserWriteThrows? ==> r.trace == [TokenWrite(u)]
    ensures !fault.NoFault? ==> r.state == s.(errorMessage := GenericErrorMessage)
    ensures r.trace <= SessionTrace(u)
    ensures r.trace == SessionTrace(u) <==> fault.NoFault?
  {
    match fault
    case NoFault => Step(s, SessionTrace(u))
    case TokenWriteThrows => Step(s.(errorMessage := GenericErrorMessage), [])
    case UserWriteThrows => Step(s.(errorMessage := GenericErrorMessage), [TokenWrite(u)])
  }

  /** The `try`/`catch` after the reply arrives (lines 80-107), for the
      credentials `sent` that were captured when the handler started. */
  function Handle(s: Screen, sent: Form, reply: Reply, fault: WriteFault): Step {
    match reply
    case Thrown => Step(s.(errorMessage := GenericErrorMessage), [])
    case Json(errors, data) =>
      if Truthy(errors) then
        Step(s.(errorMessage := GenericErrorMessage), [])
      else
        match Resolve(data, sent)
        case None => Step(s.(errorMessage := InvalidCredentialsMessage), [])
        case Some(u) => Persist(s, u, fault)
  }

  /** The reply leads to a stored session and a navigation home. */
  predicate Succeeds(sent: Form, reply: Reply, fault: WriteFault) {
    reply.Json? && !Truthy(reply.errors) && Resolve(reply.data, sent).Some? && fault.NoFault?
  }

  /** The part of `handleLogin` after the `await`, including the `finally`
      that clears `loading` on every path (lines 80-110). */
  function Complete(s: Screen, sent: Form, reply: Reply, fault: WriteFault): (r: Step)
    ensures !r.state.loading
    ensures r.state.form == s.form && r.state.showPassword == s.showPassword
    ensures Fetch !in r.trace
    ensures Navigations(r.trace, HomeScreen) <= 1
    ensures Navigations(r.trace, HomeScreen) == 1 <==> Succeeds(sent, reply, fault)
    ensures Succeeds(sent, reply, fault) ==> r.state.errorMessage == s.errorMessage
    ensures !Succeeds(sent, reply, fault) ==>
      r.state.errorMessage in {GenericErrorMessage, InvalidCredentialsMessage}
  {
    var h := Handle(s, sent, reply, fault);
    Step(h.state.(loading := false), h.trace)
  }

  /** A press of the submit button: ignored while a login is in flight
      (`disabled={loading}`, lines 189-192), otherwise `Submit`. */
  function Press(s: Screen): (r: Step)
    ensures !SubmitEnabled(s) ==> r == Step(s, [])
    ensures SubmitEnabled(s) ==> r == Submit(s)
  {
    if SubmitEnabled(s) then Submit(s) else Step(s, [])
  }

  /** The Register link (lines 122-124): one navigation to the signup screen. */
  function Register(s: Screen): (r: Step)
    ensures r.state == s
    ensures Navigations(r.trace, SignupScreen) == 1 && Navigations(r.trace, HomeScreen) == 0
    ensures forall i :: 0 <= i < |r.trace| ==> !r.trace[i].Write? && !r.trace[i].Fetch?
  {
    Step(s, [Navigate(SignupScreen)])
  }

  /** One whole login attempt from a press: the synchronous part, then, if a
      request was issued, its completion with the credentials of that moment. */
  function Attempt(s: Screen, reply: Reply, fault: WriteFault): (r: Step)
    ensures SubmitEnabled(s) ==> !r.state.loading
    ensures r.state.form == s.form && r.state.showPassword == s.showPassword
  {
    var p := Press(s);
    if Fetch in p.trace then
      var c := Complete(p.state, s.form, reply, fault);
      Step(c.state, p.trace + c.trace)
    else p
  }

  // ---------------------------------------------------------------------
  // Properties of the flow
  // ---------------------------------------------------------------------

  /** An empty field blocks all I/O: no fetch, no write, no navigation, the
      loading flag untouched, only the validation message set. */
  lemma GuardBlocksIO(s: Screen)
    requires s.form.email == "" || s.form.password == ""
    ensures Submit(s).trace == []
    ensures Submit(s).state == s.(errorMessage := MissingFieldsMessage)
  {
  }

  /** Only emptiness is tested: a whitespace-only credential issues the request. */
  lemma WhitespacePassesGuard(s: Screen)
    requires |s.form.email| >= 1 && |s.form.password| >= 1
    requires forall i :: 0 <= i < |s.form.email| ==> s.form.email[i] == ' '
    requires forall i :: 0 <= i < |s.form.password| ==> s.form.password[i] == ' '
    ensures Submit(s).trace == [Fetch]
  {
  }

  /** Once the guard passes, `loading` is set and later cleared whatever the
      reply and whichever write fails. */
  lemma LoadingCoversEveryPath(s: Screen, reply: Reply, fault: WriteFault)
    requires Filled(s.form)
    ensures Submit(s).state.loading && Submit(s).state.errorMessage == ""
    ensures !Complete(Submit(s).state, s.form, reply, fault).state.loading
  {
  }

  /** A truthy `errors` member gives the generic error whatever `data` holds
      and whichever write would fail: the directory is not consulted. */
  lemma ErrorsShortCircuit(s: Screen, sent: Form, errors: JsValue, data: Option<Data>, fault: WriteFault)
    requires Truthy(errors)
    ensures Complete(s, sent, Json(errors, data), fault) == Complete(s, sent, Json(errors, None), NoFault)
    ensures Complete(s, sent, Json(errors, data), fault).state.errorMessage == GenericErrorMessage
    ensures Complete(s, sent, Json(errors, data), fault).trace == []
  {
  }

  /** An empty `errors` array is truthy, so it also reports the generic error. */
  lemma EmptyErrorsArrayIsAnError(s: Screen, sent: Form, data: Option<Data>, fault: WriteFault)
    ensures Complete(s, sent, Json(Array([]), data), fault).state.errorMessage == GenericErrorMessage
  {
  }

  /** A miss — absent `data`, absent or empty `users`, or no matching record —
      reports invalid credentials and neither writes nor navigates. */
  lemma NoMatchFailsCleanly(s: Screen, sent: Form, errors: JsValue, data: Option<Data>, fault: WriteFault)
    requires !Truthy(errors) && Resolve(data, sent).None?
    ensures Complete(s, sent, Json(errors, data), fault).state.errorMessage == InvalidCredentialsMessage
    ensures Complete(s, sent, Json(errors, data), fault).trace == []
  {
  }

  /** A match with both writes succeeding yields exactly: token write, user
      write, one navigation home — in that order — and leaves the message as
      it was (empty after `Submit`). */
  lemma SuccessEffectsAreOrdered(s: Screen, sent: Form, errors: JsValue, data: Option<Data>)
    requires !Truthy(errors) && Resolve(data, sent).Some?
    ensures var u := Resolve(data, sent).value;
      Complete(s, sent, Json(errors, data), NoFault).trace
        == [Write(TokenKey, JsonOfId(u.id)), Write(UserKey, JsonOfUser(u)), Navigate(HomeScreen)]
    ensures Complete(s, sent, Json(errors, data), NoFault).state.errorMessage == s.errorMessage
  {
  }

  /** A thrown fetch or parse, or a rejected storage write, reports the generic
      error and never navigates; a rejected user write leaves the token write
      behind on its own. */
  lemma ExceptionsNeverNavigate(s: Screen, sent: Form, reply: Reply, fault: WriteFault)
    requires reply.Thrown? || !fault.NoFault?
    ensures Navigate(HomeScreen) !in Complete(s, sent, reply, fault).trace
    ensures reply.Thrown? ==> Complete(s, sent, reply, fault).trace == []
    ensures reply.Thrown? ==> Complete(s, sent, reply, fault).state.errorMessage == GenericErrorMessage
    ensures (reply.Json? && !Truthy(reply.errors) && Resolve(reply.data, sent).Some?) ==>
      Complete(s, sent, reply, fault).state.errorMessage == GenericErrorMessage
    ensures (reply.Json? && !Truthy(reply.errors) && Resolve(reply.data, sent).Some? && fault.TokenWriteThrows?) ==>
      Complete(s, sent, reply, fault).trace == []
    ensures (reply.Json? && !Truthy(reply.errors) && Resolve(reply.data, sent).Some? && fault.UserWriteThrows?) ==>
      Complete(s, sent, reply, fault).trace == [TokenWrite(Resolve(reply.data, sent).value)]
  {
  }

  /** Storage is written only for a resolved record: on every path that does
      not find one, the trace is empty. */
  lemma NoWritesWithoutMatch(s: Screen, sent: Form, reply: Reply, fault: WriteFault)
    requires !(reply.Json? && !Truthy(reply.errors) && Resolve(reply.data, sent).Some?)
    ensures Complete(s, sent, reply, fault).trace == []
  {
  }

  /** Every write of the completion stores the resolved record's data under
      the fixed keys. */
  lemma WritesCarryTheMatch(s: Screen, sent: Form, reply: Reply, fault: WriteFault, i: nat)
    requires i < |Complete(s, sent, reply, fault).trace|
    requires Complete(s, sent, reply, fault).trace[i].Write?
    ensures reply.Json? && Resolve(reply.data, sent).Some?
    ensures var u := Resolve(reply.data, sent).value;
      Complete(s, sent, reply, fault).trace[i] in {TokenWrite(u), UserWrite(u)}
    ensures Matches(Resolve(reply.data, sent).value, sent)
  {
  }

  /** Edits made while the request is in flight change the fields but not the
      outcome: the handler resolves the credentials it captured at submit. */
  lemma EditsInFlightDoNotMatter(s: Screen, sent: Form, reply: Reply, fault: WriteFault, text: string)
    ensures Complete(SetEmail(s, text), sent, reply, fault).trace == Complete(s, sent, reply, fault).trace
    ensures Complete(SetPassword(s, text), sent, reply, fault).trace == Complete(s, sent, reply, fault).trace
    ensures Complete(SetEmail(s, text), sent, reply, fault).state.errorMessage
         == Complete(s, sent, reply, fault).state.errorMessage
    ensures Complete(SetPassword(s, text), sent, reply, fault).state.errorMessage
         == Complete(s, sent, reply, fault).state.errorMessage
  {
  }

  /** At most one request in flight: a press while loading issues nothing and
      changes nothing. */
  lemma NoSecondFetchWhileLoading(s: Screen)
    requires s.loading
    ensures Press(s) == Step(s, [])
    ensures Fetch !in Press(s).trace
  {
  }

  /** An attempt from an idle screen issues at most one fetch, first in the trace. */
  lemma AttemptFetchesOnceFirst(s: Screen, reply: Reply, fault: WriteFault)
    requires SubmitEnabled(s)
    ensures var t := Attempt(s, reply, fault).trace;
      Fetch in t <==> Filled(s.form)
    ensures var t := Attempt(s, reply, fault).trace;
      forall i :: 0 < i < |t| ==> t[i] != Fetch
  {
  }

  /** A failed attempt never navigates and writes at most the token entry
      (when the user write is the one rejected); repeating it changes nothing
      further: the screen comes back to the same state and trace. */
  lemma FailedRetryIsIdempotent(s: Screen, reply: Reply, fault: WriteFault)
    requires SubmitEnabled(s)
    requires !Succeeds(s.form, reply, fault)
    ensures Navigate(HomeScreen) !in Attempt(s, reply, fault).trace
    ensures var t := Attempt(s, reply, fault).trace;
      forall i :: 0 <= i < |t| && t[i].Write? ==> t[i].key == TokenKey
    ensures Attempt(Attempt(s, reply, fault).state, reply, fault) == Attempt(s, reply, fault)
  {
  }

  /** The error line follows the flow: hidden while a request is in flight,
      the validation message after a blocked press, and some error after
      every failed completion. */
  lemma ErrorLineTracksFlow(s: Screen, sent: Form, reply: Reply, fault: WriteFault)
    ensures Filled(s.form) ==> ErrorLine(Submit(s).state).None?
    ensures !Filled(s.form) ==> ErrorLine(Submit(s).state) == Some(MissingFieldsMessage)
    ensures !Succeeds(sent, reply, fault) ==> ErrorLine(Complete(s, sent, reply, fault).state).Some?
  {
  }

  /** The worked example: one record with id 7 and the right password. */
  lemma SuccessScenario()
    ensures var u := User(7, "alice", "a@x.com", "p1", None);
      var s := Initial().(form := Form("a@x.com", "p1"));
      Attempt(s, Json(Null, Some(Data(Some([u])))), NoFault)
        == Step(s, [Fetch, Write(TokenKey, JsonOfId(7)), Write(UserKey, JsonOfUser(u)), Navigate(HomeScreen)])
  {
  }

  /** The same directory with a wrong password: invalid credentials, no writes. */
  lemma WrongPasswordScenario()
    ensures var u := User(7, "alice", "a@x.com", "p1", None);
      var s := Initial().(form := Form("a@x.com", "wrong"));
      Attempt(s, Json(Null, Some(Data(Some([u])))), NoFault)
        == Step(s.(errorMessage := InvalidCredentialsMessage), [Fetch])
  {
  }
}
