/**
 * The "Invite a Colleague" form: e-mail validation on submit, the
 * submitting/success/failure transitions around the send, and the
 * "Send Another Invite" reset. The send itself is an input outcome.
 */
module InviteForm {
  import opened Wrappers

  /** The form's four pieces of state. */
  datatype Form = Form(email: string, name: string, isSubmitting: bool, success: bool)

  const Initial: Form := Form("", "", false, false)

  /** A toast notification the form shows. */
  datatype Toast = ErrorToast(text: string) | SuccessToast(text: string)

  const InvalidEmailText: string := "Please enter a valid email address"
  const SentText: string := "Invitation sent successfully!"
  const FailedText: string := "Failed to send invitation. Please try again."

  /** What is handed to the invite service. */
  datatype Invite = Invite(email: string, name: string)

  /** How the invite service call ends. */
  datatype SendOutcome = Delivered | SendFailed

  /** The negation of `!email || !email.includes('@')`. */
  predicate ValidEmail(email: string) {
    email != "" && '@' in email
  }

  /** An address is accepted exactly when it contains `@` somewhere; emptiness needs no separate test. */
  lemma ValidEmailIffAt(email: string)
    ensures ValidEmail(email) <==> exists i :: 0 <= i < |email| && email[i] == '@'
  {
  }

  /** The synchronous part of a submit: rejected with a toast, or sending. */
  datatype Start = Invalid(form: Form, toast: Toast) | Sending(form: Form, invite: Invite)

  /** Validate, then mark the form as submitting and hand the invite over. */
  function BeginSubmit(f: Form): (r: Start)
    ensures r.Invalid? <==> !ValidEmail(f.email)
    ensures r.Invalid? ==> r.form == f && r.toast == ErrorToast(InvalidEmailText)
    ensures r.Sending? ==> r.form == f.(isSubmitting := true) && r.invite == Invite(f.email, f.name)
  {
    if !ValidEmail(f.email) then Invalid(f, ErrorToast(InvalidEmailText))
    else Sending(f.(isSubmitting := true), Invite(f.email, f.name))
  }

  /** The state after the send settles, applied to the form as it is then. */
  function FinishSubmit(f: Form, outcome: SendOutcome): (r: (Form, Toast))
    ensures !r.0.isSubmitting
    ensures outcome == Delivered ==>
      r.0.success && r.0.email == "" && r.0.name == "" && r.1 == SuccessToast(SentText)
    ensures outcome == SendFailed ==>
      r.0.email == f.email && r.0.name == f.name && r.0.success == f.success && r.1 == ErrorToast(FailedText)
  {
    match outcome
    case Delivered => (Form("", "", false, true), SuccessToast(SentText))
    case SendFailed => (f.(isSubmitting := false), ErrorToast(FailedText))
  }

  /** A whole submit, with no typing while the send is pending. */
  datatype Submission = Submission(form: Form, toasts: seq<Toast>, sent: Option<Invite>)

  function Submit(f: Form, outcome: SendOutcome): (r: Submission)
    ensures r.sent.Some? <==> ValidEmail(f.email)
    ensures |r.toasts| == 1
    ensures r.toasts[0].SuccessToast? <==> ValidEmail(f.email) && outcome == Delivered
  {
    match BeginSubmit(f)
    case Invalid(g, t) => Submission(g, [t], None)
    case Sending(g, invite) =>
      var (h, t) := FinishSubmit(g, outcome);
      Submission(h, [t], Some(invite))
  }

  /** An invalid address sends nothing, leaves the form as it was, and shows one error. */
  lemma SubmitInvalid(f: Form, outcome: SendOutcome)
    requires !ValidEmail(f.email)
    ensures Submit(f, outcome).sent == None
    ensures Submit(f, outcome).form == f
    ensures Submit(f, outcome).toasts == [ErrorToast(InvalidEmailText)]
  {
  }

  /** Whether an invite is sent depends on the address alone; the name is optional. */
  lemma SubmitIgnoresNameForValidation(f: Form, name: string, outcome: SendOutcome)
    ensures Submit(f, outcome).sent.Some? <==> Submit(f.(name := name), outcome).sent.Some?
    ensures Submit(f, outcome).sent.Some? <==> ValidEmail(f.email)
  {
  }

  /** A delivered invite clears both fields and shows the success panel. */
  lemma SubmitDelivered(f: Form)
    requires ValidEmail(f.email)
    ensures Submit(f, Delivered).sent == Some(Invite(f.email, f.name))
    ensures Submit(f, Delivered).form == Form("", "", false, true)
    ensures Submit(f, Delivered).toasts == [SuccessToast(SentText)]
  {
  }

  /** A failed send keeps what was typed, keeps the panel, and shows an error. */
  lemma SubmitFailed(f: Form)
    requires ValidEmail(f.email)
    ensures Submit(f, SendFailed).sent == Some(Invite(f.email, f.name))
    ensures Submit(f, SendFailed).form == f.(isSubmitting := false)
    ensures Submit(f, SendFailed).toasts == [ErrorToast(FailedText)]
  {
  }

  /** Once a send was attempted the form is no longer submitting, whatever the outcome. */
  lemma SubmitSettles(f: Form, outcome: SendOutcome)
    requires ValidEmail(f.email)
    ensures !Submit(f, outcome).form.isSubmitting
  {
  }

  /** "Send Another Invite": back to the form, nothing else changes. */
  function SendAnother(f: Form): (r: Form)
    ensures !r.success
    ensures r.email == f.email && r.name == f.name && r.isSubmitting == f.isSubmitting
  {
    f.(success := false)
  }

  /** Typing into the e-mail input. */
  function EditEmail(f: Form, email: string): (r: Form)
    ensures r.email == email && r.name == f.name && r.isSubmitting == f.isSubmitting && r.success == f.success
  {
    f.(email := email)
  }

  /** Typing into the name input. */
  function EditName(f: Form, name: string): (r: Form)
    ensures r.name == name && r.email == f.email && r.isSubmitting == f.isSubmitting && r.success == f.success
  {
    f.(name := name)
  }

  /**
   * Between user actions the form is idle, and while the success panel is
   * shown both inputs are empty.
   */
  predicate Idle(f: Form) {
    !f.isSubmitting && (f.success ==> f.email == "" && f.name == "")
  }

  /**
   * The form starts idle and every action keeps it idle; typing only happens
   * on the form view (`success` false), where the inputs are rendered.
   */
  lemma IdleInvariant(f: Form, outcome: SendOutcome, text: string)
    requires Idle(f)
    ensures Idle(Initial)
    ensures Idle(Submit(f, outcome).form)
    ensures Idle(SendAnother(f))
    ensures !f.success ==> Idle(EditEmail(f, text)) && Idle(EditName(f, text))
  {
  }
}
