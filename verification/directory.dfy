/** The reply of the user-directory query and the credential lookup run on it
    (screeens/Login.tsx, lines 80-92): a JSON body with `data` and `errors`,
    the `errors` truthiness test, and `data?.users?.find(...)` with exact,
    case-sensitive equality on email and password. */
module Directory {

  import opened Wrappers
  import opened FormState

  /** The JSON values a reply's `errors` member can hold, as far as
      JavaScript truthiness is concerned; `Undefined` is a missing member. */
  datatype JsValue =
    | Undefined
    | Null
    | Bool(b: bool)
    | Number(n: int)
    | Str(s: string)
    | Array(elements: seq<JsValue>)
    | Object

  /** JavaScript truthiness: only `undefined`, `null`, `false`, `0` and `""`
      are falsy; every array and object, including `[]` and `{}`, is truthy. */
  predicate Truthy(v: JsValue) {
    match v
    case Undefined => false
    case Null => false
    case Bool(b) => b
    case Number(n) => n != 0
    case Str(s) => s != ""
    case Array(_) => true
    case Object => true
  }

  /** One record of the directory, with the fields the login query asks for. */
  datatype User = User(id: int, username: string, email: string, password: string, website: Option<string>)

  /** `data`: absent or null is `None`; present, its `users` member may be absent or null. */
  datatype Data = Data(users: Option<seq<User>>)

  /** What `await fetch(...)` followed by `await response.json()` yields:
      either one of them throws, or the destructured `{ data, errors }`. */
  datatype Reply =
    | Thrown
    | Json(errors: JsValue, data: Option<Data>)

  /** The predicate handed to `find`: `u.email === email && u.password === password`. */
  predicate Matches(u: User, f: Form) {
    u.email == f.email && u.password == f.password
  }

  /** The index of the first record, in directory order, that matches. */
  function FirstMatch(users: seq<User>, f: Form): (r: Option<nat>)
    ensures r.Some? ==> r.value < |users| && Matches(users[r.value], f)
    ensures r.Some? ==> forall j :: 0 <= j < r.value ==> !Matches(users[j], f)
    ensures r.None? <==> forall j :: 0 <= j < |users| ==> !Matches(users[j], f)
  {
    if |users| == 0 then None
    else if Matches(users[0], f) then Some(0)
    else
      match FirstMatch(users[1..], f)
      case None => None
      case Some(k) => Some(k + 1)
  }

  /** `users.find(...)`: the first matching record, or nothing. */
  function Find(users: seq<User>, f: Form): (r: Option<User>)
    ensures r.Some? ==> r.value in users && Matches(r.value, f)
    ensures r.None? <==> forall j :: 0 <= j < |users| ==> !Matches(users[j], f)
  {
    match FirstMatch(users, f)
    case None => None
    case Some(i) => Some(users[i])
  }

  /** `data?.users?.find(...)`: a missing `data` or `users` resolves to nothing. */
  function Resolve(data: Option<Data>, f: Form): (r: Option<User>)
    ensures data.None? || data.value.users.None? ==> r.None?
    ensures r.Some? ==> data.Some? && data.value.users.Some?
    ensures r.Some? ==> r.value in data.value.users.value && Matches(r.value, f)
    ensures data.Some? && data.value.users.Some? ==>
      (r.None? <==> forall u :: u in data.value.users.value ==> !Matches(u, f))
  {
    match data
    case None => None
    case Some(d) =>
      match d.users
      case None => None
      case Some(users) => Find(users, f)
  }

  /** The scan `Array.prototype.find` performs: visit records in order and
      stop at the first that satisfies the predicate. */
  method FindUser(users: seq<User>, f: Form) returns (r: Option<User>)
    ensures r == Find(users, f)
  {
    var i := 0;
    while i < |users|
      invariant 0 <= i <= |users|
      invariant forall j :: 0 <= j < i ==> !Matches(users[j], f)
    {
      if Matches(users[i], f) {
        return Some(users[i]);
      }
      i := i + 1;
    }
    return None;
  }

  /** First match wins: a matching record preceded only by non-matching ones
      is the one found, whatever duplicates follow it. */
  lemma FirstMatchWins(users: seq<User>, f: Form, i: nat)
    requires i < |users| && Matches(users[i], f)
    requires forall j :: 0 <= j < i ==> !Matches(users[j], f)
    ensures Find(users, f) == Some(users[i])
  {
  }

  /** With `users` present, the resolved record is the first match in
      directory order: it sits at some index with no matching record before it. */
  lemma ResolveFirstMatch(data: Option<Data>, f: Form)
    requires data.Some? && data.value.users.Some?
    requires Resolve(data, f).Some?
    ensures var users := data.value.users.value;
      exists i :: 0 <= i < |users| && users[i] == Resolve(data, f).value
        && forall j :: 0 <= j < i ==> !Matches(users[j], f)
  {
  }

  /** Scanning a concatenation: the first part is searched fully before the second. */
  lemma {:induction false} FindAppend(a: seq<User>, b: seq<User>, f: Form)
    ensures Find(a + b, f) == (if Find(a, f).Some? then Find(a, f) else Find(b, f))
  {
    if |a| == 0 {
      assert a + b == b;
    } else if Matches(a[0], f) {
      FirstMatchWins(a + b, f, 0);
      FirstMatchWins(a, f, 0);
    } else {
      assert (a + b)[1..] == a[1..] + b;
      FindAppend(a[1..], b, f);
      FindSkip(a + b, f);
      FindSkip(a, f);
    }
  }

  /** A non-matching head record does not influence the lookup. */
  lemma FindSkip(users: seq<User>, f: Form)
    requires |users| > 0 && !Matches(users[0], f)
    ensures Find(users, f) == Find(users[1..], f)
  {
  }

  /** The lookup is exact: a record found for a form carries exactly that
      form's email and password, so forms that differ in either field (even
      only in letter case) never resolve to the same record. */
  lemma ResolveIsExact(data: Option<Data>, f: Form, g: Form)
    requires Resolve(data, f).Some? && Resolve(data, g).Some?
    requires Resolve(data, f) == Resolve(data, g)
    ensures f == g
  {
  }
}
