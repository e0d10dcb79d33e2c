/** The general settings form: whether at least one field is filled, the reset on submit,
    the update button and the seller layout. */
module GeneralSettings {

  /** The flag as the form loads. */
  const Initial: bool := false

  /** `handleFormChange` from the current flag: each empty value clears the flag and the loop
      goes on; the first non-empty value sets it and ends the loop. A form with no values never
      enters the loop and leaves the flag as it was. */
  method HandleFormChange(atleastOneFilled: bool, values: seq<string>) returns (r: bool)
    ensures |values| == 0 ==> r == atleastOneFilled
    ensures |values| > 0 ==> (r <==> exists i :: 0 <= i < |values| && values[i] != "")
    ensures |values| > 0 ==> (!UpdateDisabled(false, r) <==> exists i :: 0 <= i < |values| && values[i] != "")
    ensures UpdateDisabled(true, r)
  {
    r := atleastOneFilled;
    var i := 0;
    while i < |values|
      invariant 0 <= i <= |values|
      invariant forall j :: 0 <= j < i ==> values[j] == ""
      invariant i == 0 ==> r == atleastOneFilled
      invariant i > 0 ==> !r
    {
      if values[i] != "" {
        return true;
      }
      r := false;
      i := i + 1;
    }
  }

  /** `handleSubmit`: after the form is sent and cleared nothing counts as filled. */
  function Submit(atleastOneFilled: bool): (r: bool)
    ensures !r
  {
    false
  }

  /** Both update buttons are disabled while submitting or while nothing is filled. */
  function UpdateDisabled(isSubmitting: bool, atleastOneFilled: bool): (d: bool)
    ensures !d <==> !isSubmitting && atleastOneFilled
  {
    isSubmitting || !atleastOneFilled
  }

  /** Submitting puts the form back in the state it loads in, with the update button disabled
      until the user types again. */
  lemma SubmitRestoresInitial(isSubmitting: bool, atleastOneFilled: bool)
    ensures Submit(atleastOneFilled) == Initial
    ensures UpdateDisabled(isSubmitting, Submit(atleastOneFilled))
  {
  }

  /** The seller layout (with a description, without the avatar) is used when the fields
      include the name field; `nameField` is its name in the shared field-name table. */
  function IsSeller(inputFields: seq<string>, nameField: string): (b: bool)
    ensures b <==> exists i :: 0 <= i < |inputFields| && inputFields[i] == nameField
  {
    nameField in inputFields
  }

  /** The update buttons rendered: one inside each field's row when there is at most one
      field, plus one shared button below the rows when there are several. Either way a form
      with fields has exactly one update button. */
  function ButtonCount(inputFields: seq<string>): (n: nat)
    ensures n == if |inputFields| == 0 then 0 else 1
  {
    var inRows := if |inputFields| <= 1 then |inputFields| else 0;
    var shared := if |inputFields| > 1 then 1 else 0;
    inRows + shared
  }
}
