# Login flow of the shopping app, in Dafny

This project models the login screen of a React Native shopping app
(`screeens/Login.tsx`). The user types an email and a password and presses
"Log in". The handler then does the following:

- it rejects the press if either field is empty;
- it marks the screen as loading;
- it fetches the whole user directory over a GraphQL query;
- it looks for the first user whose email and password are exactly equal
  to what was typed;
- on a match, it stores an auth token and the user record under two
  AsyncStorage keys, then navigates to `Homepage`;
- otherwise it shows one of three fixed error messages;
- a `finally` block always clears the loading flag.

The model is functional. The screen state (`FormState.Screen`) is an
immutable value. Each handler is a pure function. It returns the new state
and the ordered trace of outside effects it issued: `Fetch`,
`Write(key, value)` and `Navigate(screen)`.

`handleLogin` is split at its `await`:

- `LoginFlow.Submit` is the synchronous guard and the entry into loading.
- `LoginFlow.Complete` is the `try`/`catch`/`finally` that runs once the
  reply has arrived.

The directory reply is an input, `Directory.Reply`. It is either `Thrown`,
meaning `fetch` or `response.json()` threw, or the destructured
`{ data, errors }`. Whether each storage write succeeds is the input
`LoginFlow.WriteFault`. `JSON.stringify` of the id and of the user is kept
symbolic (`LoginFlow.Serialized`). The `errors` member is tested with
JavaScript truthiness (`Directory.Truthy`), so an empty array counts as an
error.

Modules:

- `Wrappers`: `Option`.
- `FormState`: form fields, the visibility toggle, button gating and label,
  and the error line.
- `Directory`: the reply shape and the credential lookup.
- `LoginFlow`: the submit handler, the Register link and whole attempts.

What the handler does on its failure paths:

- The screen holds a `loading` flag and an `errorMessage` string; there is
  no separate status value.
- A failed guard (lines 48-51) overwrites the message and leaves `loading`
  alone.
- A thrown `fetch` or `response.json()`, or a rejected `setItem`, is caught
  at lines 105-107: the generic message is shown and there is no
  navigation. A rejected second write leaves the token entry written on
  its own.

## Model

| member | source | states |
|---|---|---|
| FormState.Initial | screeens/Login.tsx:36-42 | the screen mounts with empty fields, password hidden, not loading, no error |
| FormState.SetEmail | screeens/Login.tsx:151 | typing in the email field replaces the email and leaves the password, visibility, loading and message unchanged |
| FormState.SetPassword | screeens/Login.tsx:169-171 | typing in the password field replaces the password and leaves everything else unchanged |
| FormState.TogglePassword | screeens/Login.tsx:174 | the eye icon flips `showPassword` and changes nothing else |
| FormState.ButtonLabel | screeens/Login.tsx:194-196 | the button reads "Logging in..." exactly when submit is disabled and "Log in" exactly when it is enabled |
| FormState.InitialIsIdle | screeens/Login.tsx:36-42 | the mounted screen accepts a press, shows "Log in" and shows no error line |
| FormState.ErrorLine | screeens/Login.tsx:186 | an error line is shown exactly when the message is non-empty, and it shows that message |
| FormState.ToggleInvolution | screeens/Login.tsx:174 | toggling visibility twice restores the screen |
| FormState.EditsCommute | screeens/Login.tsx:151-171 | the two field editors touch disjoint fields, so their order does not matter |
| FormState.LastEditWins | screeens/Login.tsx:151-171 | each edit replaces the whole field value: the last edit wins |
| Directory.FirstMatch | screeens/Login.tsx:89-92 | the index found is the first matching record: it matches and no earlier record does; there is none exactly when no record matches |
| Directory.Find | screeens/Login.tsx:89-92 | `find` returns a record of the list that matches, and returns nothing exactly when no record matches |
| Directory.Resolve | screeens/Login.tsx:86-92 | a missing `data` or `users` resolves to nothing; with `users` present, nothing is resolved exactly when no record matches; a resolved record is in `data.users` and has exactly the typed email and password |
| Directory.FindUser | screeens/Login.tsx:89-92 | the in-order scan that stops at the first match returns the same record as the first-match definition |
| Directory.ResolveFirstMatch | screeens/Login.tsx:86-92 | with `data.users` present, the resolved record is the first matching one in directory order |
| Directory.FirstMatchWins | screeens/Login.tsx:89-92 | a matching record preceded only by non-matching ones is the one found, whatever duplicates follow |
| Directory.FindAppend | screeens/Login.tsx:89-92 | scanning a concatenation searches the first part fully before the second |
| Directory.ResolveIsExact | screeens/Login.tsx:90-91 | equality is exact: two forms that resolve to the same record are identical, so case variants never match the same user |
| LoginFlow.Submit | screeens/Login.tsx:47-54 | a fetch is issued exactly when both fields are non-empty; otherwise the trace is empty, loading is unchanged and the validation message is set; on the good path loading is set and the message cleared |
| LoginFlow.Persist | screeens/Login.tsx:98-107 | the trace is always a prefix of token write, user write, navigation home, and all of it exactly when no write is rejected; a rejected write gives the generic message and keeps only the writes that completed |
| LoginFlow.Complete | screeens/Login.tsx:80-110 | loading is always cleared; no fetch; at most one navigation home, present exactly when the reply resolves a user and both writes succeed; the message is unchanged on success and is the generic or invalid-credentials message otherwise |
| LoginFlow.Press | screeens/Login.tsx:189-192 | a press while loading does nothing; an enabled press runs the handler |
| LoginFlow.Register | screeens/Login.tsx:122-124 | the Register link navigates once to Signup, writes nothing and leaves the state unchanged |
| LoginFlow.Attempt | screeens/Login.tsx:46-111 | a whole attempt from an idle screen ends not loading and keeps the form fields and visibility |
| LoginFlow.GuardBlocksIO | screeens/Login.tsx:47-51 | an empty field produces no effects and only sets the validation message |
| LoginFlow.WhitespacePassesGuard | screeens/Login.tsx:48 | only emptiness is tested: any form whose fields are non-empty and all spaces issues the request |
| LoginFlow.LoadingCoversEveryPath | screeens/Login.tsx:53-54 | after the guard passes, loading is set and the message cleared; every completion then clears loading |
| LoginFlow.ErrorsShortCircuit | screeens/Login.tsx:82-84 | a truthy `errors` member gives the generic message with no effects, whatever `data` and the storage do |
| LoginFlow.EmptyErrorsArrayIsAnError | screeens/Login.tsx:82 | an empty `errors` array is truthy and reports the generic error |
| LoginFlow.NoMatchFailsCleanly | screeens/Login.tsx:94-95 | a resolution miss, including absent or empty users, gives the invalid-credentials message with no writes and no navigation |
| LoginFlow.SuccessEffectsAreOrdered | screeens/Login.tsx:96-102 | a match with working storage yields exactly the token write, then the user write, then one navigation home, and keeps the message |
| LoginFlow.ExceptionsNeverNavigate | screeens/Login.tsx:70-107 | a thrown fetch or parse, or a rejected write, never navigates and reports the generic message; a rejected token write leaves no effect and a rejected user write leaves only the token write |
| LoginFlow.NoWritesWithoutMatch | screeens/Login.tsx:82-95 | when no record is resolved, the completion issues no effect at all |
| LoginFlow.WritesCarryTheMatch | screeens/Login.tsx:98-99 | every write stores the resolved, matching record's id or record under the fixed keys |
| LoginFlow.EditsInFlightDoNotMatter | screeens/Login.tsx:47 | edits to either field made during the request change neither its effects nor its message: the credentials captured at submit are used |
| LoginFlow.NoSecondFetchWhileLoading | screeens/Login.tsx:192 | a press while a login is in flight issues no second fetch and changes nothing |
| LoginFlow.AttemptFetchesOnceFirst | screeens/Login.tsx:53-80 | an attempt from an idle screen fetches exactly when both fields are filled, and only as its first effect |
| LoginFlow.FailedRetryIsIdempotent | screeens/Login.tsx:82-110 | a failed attempt never navigates and writes at most the token entry; repeating it returns the same state and trace |
| LoginFlow.ErrorLineTracksFlow | screeens/Login.tsx:48-110 | the error line is hidden while a request is in flight, shows the validation message after a blocked press, and shows an error after every failed completion |
| LoginFlow.SuccessScenario | screeens/Login.tsx:46-111 | with record id 7 and the right password, the trace is fetch, token 7, the record, navigation home |
| LoginFlow.WrongPasswordScenario | screeens/Login.tsx:94-95 | with the wrong password, the trace is only the fetch and the message is invalid credentials |

## Left out

- Network transport, `fetch`, `response.json()` and the GraphQL query text are not modelled. They are replaced by the `Reply` input. `response.ok` is never checked, so HTTP status is not a separate case.
- AsyncStorage is modelled as ordered `Write` effects. Persistence and write atomicity are not modelled. A rejected write is chosen by the `WriteFault` input.
- `JSON.stringify` is kept symbolic. Distinct ids and records serialise to distinct values.
- The navigator is reduced to the `Navigate("Homepage")` and `Navigate("Signup")` effects. A throwing `navigate` is not modelled.
- Non-well-formed directory data is not modelled: a non-array `users` member, or a `null` entry in the list, would make `find` throw into the generic-error path.
- `NaN` and `-0` are not modelled as falsy `errors` values, because numbers are integers here.
- React rendering, hooks, re-render batching, styles, icons and images are not modelled. Neither is `console.error` logging.
- The Google and Facebook buttons only log, so they are not modelled.
- `screeens/Signup.tsx` is not part of this model. Its `handleLogin` is never bound to a control. The Create Account button only logs.
- Each field edit is taken to see the latest state. In the source, both editors spread the `formData` captured at render time (lines 151 and 170), so two edits fired from the same render would not commute: the later one would restore the older value of the other field.
- Async interleaving is reduced to the `Submit`/`Complete` split. The only concurrency rule is the `disabled={loading}` gate.
