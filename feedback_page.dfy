/**
  The feedback page: a four-field form (name, career, faculty, opinion), its
  change handlers, and the submit handler that validates the trimmed fields,
  sends the record to the feedback table and reports success or failure.
  The table insert is outside the model: its outcome is a parameter.
*/
module FeedbackPage {
  import opened Wrappers
  import opened Text

  /** The opinion choice; `NoOpinion` is the empty string of the initial form. */
  datatype Opinion = NoOpinion | Regular | Bueno | Excelente

  /** The form's text fields, the keys `handleInputChange` is called with. */
  datatype Field = Name | Career | Faculty

  datatype FormData = FormData(name: string, career: string, faculty: string, opinion: Opinion)

  /** The record handed to the feedback table. */
  datatype Feedback = Feedback(name: string, career: string, faculty: string, opinion: Opinion)

  const RequiredFieldsMessage: string := "Por favor completa todos los campos requeridos"
  const RetryMessage: string := "Error al procesar tu feedback. Por favor intenta nuevamente."

  /** The form as first shown: every field empty and no opinion chosen. */
  const EmptyForm: FormData := FormData("", "", "", NoOpinion)

  /** The value of a text field. */
  function FieldValue(d: FormData, f: Field): string
  {
    match f
    case Name => d.name
    case Career => d.career
    case Faculty => d.faculty
  }

  /** The form with one text field replaced. */
  function WithField(d: FormData, f: Field, v: string): (r: FormData)
    ensures FieldValue(r, f) == v
    ensures forall g :: g != f ==> FieldValue(r, g) == FieldValue(d, g)
    ensures r.opinion == d.opinion
  {
    match f
    case Name => d.(name := v)
    case Career => d.(career := v)
    case Faculty => d.(faculty := v)
  }

  /** The validation in front of the submit: each text field non-blank once trimmed, and an opinion chosen. */
  predicate Complete(d: FormData)
    ensures Complete(d) ==> d.name != "" && d.career != "" && d.faculty != ""
  {
    Trim(d.name) != "" && Trim(d.career) != "" && Trim(d.faculty) != "" && d.opinion != NoOpinion
  }

  /** A field made only of white space (or empty) fails the validation. */
  lemma BlankFieldRejected(d: FormData, f: Field)
    requires forall i :: 0 <= i < |FieldValue(d, f)| ==> IsWhitespace(FieldValue(d, f)[i])
    ensures !Complete(d)
  {
    TrimEmptyIffBlank(FieldValue(d, f));
  }

  /** `s` has a character that is not white space. */
  predicate NonBlank(s: string)
  {
    exists i :: 0 <= i < |s| && !IsWhitespace(s[i])
  }

  /** The form passes exactly when each text field has a non-blank character and an opinion is chosen. */
  lemma CompleteIffNonBlank(d: FormData)
    ensures Complete(d) <==>
      NonBlank(d.name) && NonBlank(d.career) && NonBlank(d.faculty) && d.opinion != NoOpinion
  {
    TrimEmptyIffBlank(d.name);
    TrimEmptyIffBlank(d.career);
    TrimEmptyIffBlank(d.faculty);
  }

  /** The record sent for a form: the text fields trimmed, the opinion as chosen. */
  function ToFeedback(d: FormData): (r: Feedback)
    ensures r.name == Trim(d.name) && r.career == Trim(d.career) && r.faculty == Trim(d.faculty)
    ensures r.opinion == d.opinion
    ensures |r.name| <= |d.name| && |r.career| <= |d.career| && |r.faculty| <= |d.faculty|
  {
    Feedback(Trim(d.name), Trim(d.career), Trim(d.faculty), d.opinion)
  }

  /**
    A sent record of a complete form has no empty field and no surrounding
    white space: sending it through the form again would send it unchanged.
  */
  lemma SentRecordIsClean(d: FormData)
    requires Complete(d)
    ensures var r := ToFeedback(d);
      r.name != "" && r.career != "" && r.faculty != "" && r.opinion != NoOpinion
      && Complete(FormData(r.name, r.career, r.faculty, r.opinion))
      && ToFeedback(FormData(r.name, r.career, r.faculty, r.opinion)) == r
  {
    TrimIdempotent(d.name);
    TrimIdempotent(d.career);
    TrimIdempotent(d.faculty);
  }

  /**
    The page's state. `sent` lists the records passed to the feedback
    table, in call order.
  */
  class Page {
    var formData: FormData
    var isSubmitting: bool
    var isSubmitted: bool
    var error: Option<string>
    var sent: seq<Feedback>

    /** The initial state: an empty form, nothing in progress, no error. */
    constructor ()
      ensures formData == EmptyForm
      ensures !isSubmitting && !isSubmitted && error == None && sent == []
    {
      formData := EmptyForm;
      isSubmitting := false;
      isSubmitted := false;
      error := None;
      sent := [];
    }

    /** `handleInputChange`: replaces one text field and clears the error. */
    method HandleInputChange(f: Field, v: string)
      modifies this
      ensures formData == WithField(old(formData), f, v)
      ensures error == None
      ensures isSubmitting == old(isSubmitting) && isSubmitted == old(isSubmitted) && sent == old(sent)
    {
      formData := WithField(formData, f, v);
      error := None;
    }

    /** `handleOpinionChange`: replaces the opinion and clears the error. */
    method HandleOpinionChange(o: Opinion)
      requires o != NoOpinion
      modifies this
      ensures formData == old(formData).(opinion := o)
      ensures error == None
      ensures isSubmitting == old(isSubmitting) && isSubmitted == old(isSubmitted) && sent == old(sent)
    {
      formData := formData.(opinion := o);
      error := None;
    }

    /**
      The synchronous part of `handleSubmit`, up to the table insert: an
      incomplete form only sets the "complete all fields" error; a complete
      one starts the submission and sends the trimmed record.
    */
    method BeginSubmit() returns (accepted: bool)
      modifies this
      ensures accepted <==> Complete(old(formData))
      ensures formData == old(formData) && isSubmitted == old(isSubmitted)
      ensures !accepted ==>
        error == Some(RequiredFieldsMessage) && isSubmitting == old(isSubmitting) && sent == old(sent)
      ensures accepted ==> isSubmitting && error == None && sent == old(sent) + [ToFeedback(formData)]
    {
      if !Complete(formData) {
        error := Some(RequiredFieldsMessage);
        return false;
      }
      isSubmitting := true;
      error := None;
      sent := sent + [ToFeedback(formData)];
      return true;
    }

    /** The rest of `handleSubmit`, once the insert has succeeded or failed. */
    method FinishSubmit(insertSucceeded: bool)
      modifies this
      ensures !isSubmitting
      ensures insertSucceeded ==> isSubmitted && error == old(error)
      ensures !insertSucceeded ==> isSubmitted == old(isSubmitted) && error == Some(RetryMessage)
      ensures formData == old(formData) && sent == old(sent)
    {
      if insertSucceeded {
        isSubmitted := true;
      } else {
        error := Some(RetryMessage);
      }
      isSubmitting := false;
    }

    /** `handleSubmit` from start to end, with the insert's outcome given. */
    method HandleSubmit(insertSucceeds: bool)
      modifies this
      ensures formData == old(formData)
      ensures !Complete(formData) ==>
        error == Some(RequiredFieldsMessage) && sent == old(sent)
        && isSubmitting == old(isSubmitting) && isSubmitted == old(isSubmitted)
      ensures Complete(formData) ==> !isSubmitting && sent == old(sent) + [ToFeedback(formData)]
      ensures Complete(formData) && insertSucceeds ==> isSubmitted && error == None
      ensures Complete(formData) && !insertSucceeds ==>
        isSubmitted == old(isSubmitted) && error == Some(RetryMessage)
    {
      var accepted := BeginSubmit();
      if accepted {
        FinishSubmit(insertSucceeds);
      }
    }
  }

  /** Filling in the form with padded values and submitting sends the trimmed values. */
  method PaddedFormSendsTrimmed() returns (p: Page)
    ensures p.isSubmitted && !p.isSubmitting && p.error == None
    ensures p.sent == [Feedback("Ana", "Artes", "Ciencias", Bueno)]
  {
    p := new Page();
    p.HandleInputChange(Name, " Ana ");
    p.HandleInputChange(Career, "Artes");
    p.HandleInputChange(Faculty, "Ciencias\n");
    p.HandleOpinionChange(Bueno);
    TrimOfPadded();
    p.HandleSubmit(true);
  }

  lemma TrimOfPadded()
    ensures Trim(" Ana ") == "Ana" && Trim("Artes") == "Artes" && Trim("Ciencias\n") == "Ciencias"
  {
    TrimSpaces();
    TrimBare();
    TrimNewline();
  }

  lemma TrimSpaces()
    ensures Trim(" Ana ") == "Ana"
  {
    var s := " Ana ";
    assert LeadingBlanks(s[1..]) == 0;
    assert LeadingBlanks(s) == 1;
    var t := s[1..];
    assert t == "Ana ";
    assert TrailingStart(t[..3]) == 3;
    assert TrailingStart(t) == 3;
  }

  lemma TrimBare()
    ensures Trim("Artes") == "Artes"
  {
    var s := "Artes";
    assert LeadingBlanks(s) == 0;
    assert s[0..] == s;
    assert TrailingStart(s) == 5;
  }

  lemma TrimNewline()
    ensures Trim("Ciencias\n") == "Ciencias"
  {
    var s := "Ciencias\n";
    assert LeadingBlanks(s) == 0;
    assert s[0..] == s;
    assert TrailingStart(s[..8]) == 8;
    assert TrailingStart(s) == 8;
  }
}
