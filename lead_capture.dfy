/** The landing page's lead form (src/components/LeadCapture.tsx): a name
    and an age, and a thank-you card once both are filled in. Nothing is
    sent anywhere. */
module LeadCapture {
  import opened Text

  /** What the section shows. */
  datatype LeadView = Form | ThankYou(name: string)

  /** The condition of line 14: `name.trim() && age.trim()`. */
  predicate Filled(name: string, age: string) {
    Trim(name) != [] && Trim(age) != []
  }

  /** The form counts as filled exactly when neither field is blank; the
      age is any non-blank text, whatever the number input's 16 to 45 range. */
  lemma FilledIff(name: string, age: string)
    ensures Filled(name, age) <==> !AllSpace(name) && !AllSpace(age)
  {
    TrimEmptyIffBlank(name);
    TrimEmptyIffBlank(age);
  }

  /** The component's state. */
  class LeadForm {
    var name: string
    var age: string
    var submitted: bool

    constructor ()
      ensures name == [] && age == [] && !submitted
    {
      name := [];
      age := [];
      submitted := false;
    }

    /** The name input. */
    method SetName(s: string)
      modifies this`name
      ensures name == s
    {
      name := s;
    }

    /** The age input. */
    method SetAge(s: string)
      modifies this`age
      ensures age == s
    {
      age := s;
    }

    /** `handleSubmit`: sets `submitted` when both fields are filled and
        otherwise leaves it as it was; it never clears it. */
    method HandleSubmit()
      modifies this`submitted
      ensures submitted == (old(submitted) || Filled(name, age))
    {
      if Trim(name) != [] && Trim(age) != [] {
        submitted := true;
      }
    }

    /** The render: the thank-you card greets the name as typed. */
    function View(): (v: LeadView)
      reads this
      ensures v.ThankYou? <==> submitted
    {
      if submitted then ThankYou(name) else Form
    }
  }

  /** Once the thank-you card is shown it stays, whatever is typed or
      submitted afterwards. */
  method SubmittedStays(f: LeadForm, name: string, age: string)
    requires f.submitted
    modifies f
    ensures f.View().ThankYou?
  {
    f.SetName(name);
    f.SetAge(age);
    f.HandleSubmit();
  }
}
