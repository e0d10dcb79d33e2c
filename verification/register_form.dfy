/** The registration form: the empty-field flag, the reset on submit, the order of the country
    names and the choice of form by role. */
module RegisterForm {
  import Sorting

  datatype State = State(oneOfFieldsIsEmpty: bool, resetDropdown: bool)

  const Initial := State(true, false)

  /** `handleFormChange`: the loop over the form's values stops at the first empty one. */
  method HandleFormChange(s: State, values: seq<string>) returns (r: State)
    ensures r.oneOfFieldsIsEmpty <==> exists i :: 0 <= i < |values| && values[i] == ""
    ensures r.resetDropdown == s.resetDropdown
    ensures !SubmitDisabled(false, r) <==> forall i :: 0 <= i < |values| ==> values[i] != ""
    ensures SubmitDisabled(true, r)
  {
    var i := 0;
    while i < |values|
      invariant 0 <= i <= |values|
      invariant forall j :: 0 <= j < i ==> values[j] != ""
    {
      if values[i] == "" {
        return s.(oneOfFieldsIsEmpty := true);
      }
      i := i + 1;
    }
    r := s.(oneOfFieldsIsEmpty := false);
  }

  /** `handleSubmit`: after the form is sent and cleared, the dropdown is told to reset and the
      fields count as empty again. */
  function Submit(s: State): (r: State)
    ensures r.oneOfFieldsIsEmpty && r.resetDropdown
  {
    State(true, true)
  }

  /** `handleResetComplete`: the dropdown has reset itself. */
  function ResetComplete(s: State): (r: State)
    ensures !r.resetDropdown && r.oneOfFieldsIsEmpty == s.oneOfFieldsIsEmpty
  {
    s.(resetDropdown := false)
  }

  /** The submit button is disabled while submitting or while some field is empty. */
  function SubmitDisabled(isSubmitting: bool, s: State): (d: bool)
    ensures !d <==> !isSubmitting && !s.oneOfFieldsIsEmpty
  {
    isSubmitting || s.oneOfFieldsIsEmpty
  }

  /** A submission followed by the dropdown's reset puts the form back in the state it loads
      in, and the button stays disabled throughout until the user types again. */
  lemma SubmitThenResetIsInitial(isSubmitting: bool, s: State)
    ensures ResetComplete(Submit(s)) == Initial
    ensures SubmitDisabled(isSubmitting, Submit(s)) && SubmitDisabled(isSubmitting, Initial)
  {
  }

  // ---------------------------------------------------------------------------
  // countryNames.sort()
  // ---------------------------------------------------------------------------

  /** The default order of `sort`: strings compared character by character, a proper prefix
      first. */
  predicate LexLe(a: string, b: string)
    decreases |a|
  {
    |a| == 0 || (|b| > 0 && (a[0] < b[0] || (a[0] == b[0] && LexLe(a[1..], b[1..]))))
  }

  lemma {:induction false} LexLeTotal(a: string, b: string)
    ensures LexLe(a, b) || LexLe(b, a)
    decreases |a|
  {
    if |a| > 0 && |b| > 0 && a[0] == b[0] {
      LexLeTotal(a[1..], b[1..]);
    }
  }

  lemma {:induction false} LexLeTransitive(a: string, b: string, c: string)
    requires LexLe(a, b) && LexLe(b, c)
    ensures LexLe(a, c)
    decreases |a|
  {
    if |a| > 0 && a[0] == b[0] && b[0] == c[0] {
      LexLeTransitive(a[1..], b[1..], c[1..]);
    }
  }

  /** Equal strings are the only ones ordered both ways. */
  lemma {:induction false} LexLeAntisymmetric(a: string, b: string)
    requires LexLe(a, b) && LexLe(b, a)
    ensures a == b
    decreases |a|
  {
    if |a| > 0 {
      LexLeAntisymmetric(a[1..], b[1..]);
      assert a == [a[0]] + a[1..] && b == [b[0]] + b[1..];
    }
  }

  lemma LexLeIsTotalPreorder()
    ensures Sorting.TotalPreorder(LexLe)
  {
    forall a, b ensures LexLe(a, b) || LexLe(b, a) {
      LexLeTotal(a, b);
    }
    forall a, b, c | LexLe(a, b) && LexLe(b, c) ensures LexLe(a, c) {
      LexLeTransitive(a, b, c);
    }
  }

  /** The country names offered in the dropdown: the same names, in ascending order. */
  function SortedCountryNames(names: seq<string>): (r: seq<string>)
    ensures multiset(r) == multiset(names)
    ensures forall i, j :: 0 <= i < j < |r| ==> LexLe(r[i], r[j])
  {
    LexLeIsTotalPreorder();
    var r := Sorting.Sort(names, LexLe);
    assert Sorting.SortedBy(r, LexLe);
    r
  }

  /** Two ascending orders of the same non-empty names start with the same name. */
  lemma SortedHeadsAgree(a: seq<string>, b: seq<string>)
    requires |a| > 0 && multiset(a) == multiset(b)
    requires forall i, j :: 0 <= i < j < |a| ==> LexLe(a[i], a[j])
    requires forall i, j :: 0 <= i < j < |b| ==> LexLe(b[i], b[j])
    ensures |b| > 0 && a[0] == b[0]
  {
    assert a[0] in multiset(b);
    assert b[0] in multiset(a);
    var i :| 0 <= i < |b| && b[i] == a[0];
    var k :| 0 <= k < |a| && a[k] == b[0];
    LexLeTotal(a[0], a[0]);
    LexLeTotal(b[0], b[0]);
    assert LexLe(a[0], a[k]) && LexLe(b[0], b[i]);
    LexLeAntisymmetric(a[0], b[0]);
  }

  /** Removing the same first name from both leaves the same names. */
  lemma TailsShareNames(a: seq<string>, b: seq<string>)
    requires |a| > 0 && |b| > 0 && a[0] == b[0] && multiset(a) == multiset(b)
    ensures multiset(a[1..]) == multiset(b[1..])
  {
    assert a == [a[0]] + a[1..] && b == [b[0]] + b[1..];
    assert multiset(a) == multiset{a[0]} + multiset(a[1..]);
    assert multiset(b) == multiset{b[0]} + multiset(b[1..]);
    calc {
      multiset(a[1..]);
      multiset(a) - multiset{a[0]};
      multiset(b) - multiset{b[0]};
      multiset(b[1..]);
    }
  }

  /** Sorting is determined by the names alone: two orders of the same names sort alike. */
  lemma {:induction false} SortedIsUnique(a: seq<string>, b: seq<string>)
    requires multiset(a) == multiset(b)
    requires forall i, j :: 0 <= i < j < |a| ==> LexLe(a[i], a[j])
    requires forall i, j :: 0 <= i < j < |b| ==> LexLe(b[i], b[j])
    ensures a == b
    decreases |a|
  {
    if |a| > 0 {
      SortedHeadsAgree(a, b);
      TailsShareNames(a, b);
      SortedIsUnique(a[1..], b[1..]);
      assert a == [a[0]] + a[1..] && b == [b[0]] + b[1..];
    }
  }

  // ---------------------------------------------------------------------------
  // the form shown for a role
  // ---------------------------------------------------------------------------

  /** Nothing, the tourist form (with nationality, mobile, birth date and occupation), or the
      basic form (email, username, password). */
  datatype Form = NoForm | TouristForm | BasicForm

  const TouristRole: string := "Tourist"

  function FormFor(userRole: string): (f: Form)
    ensures f == NoForm <==> userRole == ""
    ensures f == TouristForm <==> userRole == TouristRole
  {
    if userRole != "" && userRole == TouristRole then TouristForm
    else if userRole != "" then BasicForm
    else NoForm
  }
}
