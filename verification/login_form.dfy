/** The login form's state: the empty-field flag, the password-visibility toggle and the
    background carousel. */
module LoginForm {
  import opened Base

  /** The three pieces of form state. */
  datatype State = State(oneOfFieldsIsEmpty: bool, showPassword: bool, hasPassword: bool)

  const Initial := State(true, false, false)

  /** `handleFormChange` with the form's current `email` and `password` values; a missing or
      empty value is empty. */
  function Change(s: State, email: Option<string>, password: Option<string>): (r: State)
    ensures r.oneOfFieldsIsEmpty <==> !TruthyString(email) || !TruthyString(password)
    ensures r.hasPassword <==> TruthyString(password)
    ensures !TruthyString(password) ==> !r.showPassword
    ensures TruthyString(password) ==> r.showPassword == s.showPassword
  {
    var emailIsEmpty := !TruthyString(email);
    var passwordIsEmpty := !TruthyString(password);
    State(emailIsEmpty || passwordIsEmpty, if passwordIsEmpty then false else s.showPassword, !passwordIsEmpty)
  }

  /** `togglePasswordVisibility`, reachable only through the button shown while the form holds
      a password; without it the click cannot happen and the state stays as it is. */
  function Toggle(s: State): (r: State)
    ensures s.hasPassword ==> r.showPassword == !s.showPassword
    ensures r.hasPassword == s.hasPassword && r.oneOfFieldsIsEmpty == s.oneOfFieldsIsEmpty
    ensures !s.hasPassword ==> r == s
  {
    if s.hasPassword then s.(showPassword := !s.showPassword) else s
  }

  /** The password is shown only while there is one. */
  ghost predicate Consistent(s: State) {
    s.showPassword ==> s.hasPassword
  }

  datatype Event = FormChange(email: Option<string>, password: Option<string>) | TogglePassword

  function Step(s: State, e: Event): State {
    match e
    case FormChange(email, password) => Change(s, email, password)
    case TogglePassword => Toggle(s)
  }

  /** The state after a sequence of events, the first applied first. */
  function Run(s: State, events: seq<Event>): State
    decreases |events|
  {
    if |events| == 0 then s else Run(Step(s, events[0]), events[1..])
  }

  lemma StepKeepsConsistent(s: State, e: Event)
    requires Consistent(s)
    ensures Consistent(Step(s, e))
  {
  }

  /** From the initial state, whatever the user types and clicks, a password is never shown
      when the field is empty. */
  lemma {:induction false} RunKeepsConsistent(s: State, events: seq<Event>)
    requires Consistent(s)
    ensures Consistent(Run(s, events))
    decreases |events|
  {
    if |events| > 0 {
      StepKeepsConsistent(s, events[0]);
      RunKeepsConsistent(Step(s, events[0]), events[1..]);
    }
  }

  lemma InitialIsConsistent()
    ensures Consistent(Initial) && Initial.oneOfFieldsIsEmpty
  {
  }

  /** Two clicks of the toggle give back the state they started from. */
  lemma ToggleTwiceIsIdentity(s: State)
    ensures Toggle(Toggle(s)) == s
  {
  }

  // ---------------------------------------------------------------------------
  // the carousel
  // ---------------------------------------------------------------------------

  /** The image index, counted from 0; `NaN` is what `% 0` yields when there are no images. */
  datatype Index = At(i: nat) | NaN

  /** One tick of the interval: `(prevIndex + 1) % imgs.length`. */
  function Tick(index: Index, n: nat): (r: Index)
    ensures n == 0 || index.NaN? <==> r.NaN?
    ensures r.At? ==> r.i < n
    ensures index.At? && index.i + 1 < n ==> r == At(index.i + 1)
    ensures index.At? && index.i + 1 == n ==> r == At(0)
  {
    match index
    case NaN => NaN
    case At(i) => if n == 0 then NaN else At((i + 1) % n)
  }

  function Ticks(index: Index, n: nat, k: nat): Index
    decreases k
  {
    if k == 0 then index else Tick(Ticks(index, n, k - 1), n)
  }

  /** `a % n` is the `r` of any decomposition `a == q * n + r` with `0 <= r < n`. */
  lemma ModUnique(a: int, n: int, q: int, r: int)
    requires n > 0 && 0 <= r < n && a == q * n + r
    ensures a % n == r
  {
    var q', r' := a / n, a % n;
    var d := q - q';
    assert d * n == r' - r by {
      assert q * n - q' * n == d * n;
    }
    if d > 0 {
      MultipleAtLeast(d, n);
    } else if d < 0 {
      MultipleAtLeast(-d, n);
    }
  }

  lemma MultipleAtLeast(d: int, n: int)
    requires d >= 1 && n > 0
    ensures d * n >= n
  {
    assert d * n == (d - 1) * n + n;
  }

  /** Counting up by one moves the remainder on by one, wrapping at `n`. */
  lemma ModSuccessor(k: nat, n: nat)
    requires n > 0
    ensures (k + 1) % n == if k % n + 1 == n then 0 else k % n + 1
  {
    var q, r := k / n, k % n;
    if r + 1 == n {
      ModUnique(k + 1, n, q + 1, 0);
    } else {
      ModUnique(k + 1, n, q, r + 1);
    }
  }

  /** Starting from the first image, the k-th tick shows image `k mod n`: every image in turn. */
  lemma {:induction false} TicksCycle(n: nat, k: nat)
    requires n > 0
    ensures Ticks(At(0), n, k) == At(k % n)
    decreases k
  {
    if k > 0 {
      TicksCycle(n, k - 1);
      ModSuccessor(k - 1, n);
    }
  }

  /** With no images the index becomes `NaN` on the first tick and stays so. */
  lemma NoImagesGivesNaN(index: Index, k: nat)
    requires k > 0
    ensures Ticks(index, 0, k) == NaN
  {
  }
}
