/**
 * The contact form (src/components/ContactForm.tsx): a four-field record
 * replaced field by field on every keystroke, and handed out on submit to the
 * `onSubmit` prop, or acknowledged locally when none was supplied.
 */
module ContactForm {

  datatype Field = Name | Address | Email | Phone

  datatype ContactFormData = ContactFormData(name: string, address: string, email: string, phone: string)

  /** The record a mounted form starts with. */
  const EmptyForm: ContactFormData := ContactFormData("", "", "", "")

  function Get(d: ContactFormData, f: Field): string {
    match f
    case Name => d.name
    case Address => d.address
    case Email => d.email
    case Phone => d.phone
  }

  /** `{ ...prev, [name]: value }`: the named field takes the value, the other three are kept. */
  function Set(d: ContactFormData, f: Field, value: string): (r: ContactFormData)
    ensures Get(r, f) == value
    ensures forall g :: g != f ==> Get(r, g) == Get(d, g)
  {
    match f
    case Name => d.(name := value)
    case Address => d.(address := value)
    case Email => d.(email := value)
    case Phone => d.(phone := value)
  }

  /** A change event: the input's `name` and `value`. */
  datatype Change = Change(field: Field, value: string)

  /** The record after a run of change events, first event first. */
  function ApplyChanges(d: ContactFormData, cs: seq<Change>): ContactFormData
    decreases cs
  {
    if cs == [] then d else ApplyChanges(Set(d, cs[0].field, cs[0].value), cs[1..])
  }

  /** The value last written to `f` in the run, or `initial` if `f` was never written. */
  function LastValue(cs: seq<Change>, f: Field, initial: string): string
  {
    if cs == [] then initial
    else if cs[|cs| - 1].field == f then cs[|cs| - 1].value
    else LastValue(cs[..|cs| - 1], f, initial)
  }

  lemma {:induction false} ApplyChangesSnoc(d: ContactFormData, cs: seq<Change>, c: Change)
    ensures ApplyChanges(d, cs + [c]) == Set(ApplyChanges(d, cs), c.field, c.value)
    decreases cs
  {
    if cs != [] {
      assert (cs + [c])[1..] == cs[1..] + [c];
      ApplyChangesSnoc(Set(d, cs[0].field, cs[0].value), cs[1..], c);
    }
  }

  /** Last write wins per field, independently of the other fields. */
  lemma {:induction false} LastWriteWins(d: ContactFormData, cs: seq<Change>, f: Field)
    ensures Get(ApplyChanges(d, cs), f) == LastValue(cs, f, Get(d, f))
  {
    if cs != [] {
      var init, c := cs[..|cs| - 1], cs[|cs| - 1];
      assert cs == init + [c];
      ApplyChangesSnoc(d, init, c);
      LastWriteWins(d, init, f);
    }
  }

  /** From a fresh form, a field never typed into is still empty. */
  lemma UntouchedFieldStaysEmpty(cs: seq<Change>, f: Field)
    requires forall i :: 0 <= i < |cs| ==> cs[i].field != f
    ensures Get(ApplyChanges(EmptyForm, cs), f) == ""
  {
    LastWriteWins(EmptyForm, cs, f);
    NeverWritten(cs, f, "");
  }

  lemma {:induction false} NeverWritten(cs: seq<Change>, f: Field, initial: string)
    requires forall i :: 0 <= i < |cs| ==> cs[i].field != f
    ensures LastValue(cs, f, initial) == initial
  {
    if cs != [] {
      NeverWritten(cs[..|cs| - 1], f, initial);
    }
  }

  /** What a submit hands out. */
  datatype SubmitEffect = Delivered(data: ContactFormData) | Acknowledged(data: ContactFormData)

  class Form {
    /** Whether the `onSubmit` prop was supplied. */
    const hasOnSubmit: bool
    var formData: ContactFormData
    /** Every submission handed out, oldest first. */
    var effects: seq<SubmitEffect>

    constructor (hasOnSubmit: bool)
      ensures this.hasOnSubmit == hasOnSubmit
      ensures formData == EmptyForm && effects == []
    {
      this.hasOnSubmit := hasOnSubmit;
      formData := EmptyForm;
      effects := [];
    }

    /** A keystroke in the input named `field`. */
    method HandleChange(field: Field, value: string)
      modifies this`formData
      ensures formData == Set(old(formData), field, value)
    {
      formData := Set(formData, field, value);
    }

    /** The form's submit: the current record, once, and the record is left as it was. */
    method HandleSubmit()
      modifies this`effects
      ensures formData == old(formData)
      ensures effects == old(effects) + [if hasOnSubmit then Delivered(formData) else Acknowledged(formData)]
    {
      if hasOnSubmit {
        effects := effects + [Delivered(formData)];
      } else {
        effects := effects + [Acknowledged(formData)];
      }
    }
  }
}
