/** Authorization attempts: provider error categories and what each one allows next. */
module Attempts {
  import opened Wrappers

  datatype AttemptStatus = AttemptPending | NeedsAction | Approved | Declined | Unavailable | Unknown {

    /** Still waiting for an outcome. */
    predicate IsOpen() {
      AttemptPending? || NeedsAction? || Unknown?
    }
  }

  datatype Category =
    | NoCategory | DeclinedHard | DeclinedSoft | FraudSuspected | AuthenticationRequired | AuthenticationFailed
    | InvalidRequest | ProviderConfigError | ProviderUnavailable | ProviderRateLimited | ProviderTimeout
    | DuplicateRequest | UnsupportedOperation | UnknownCategory | OtherCategory(text: string)

  /** The attempt status a category stands for; what is not in the table is unknown. */
  function StatusFor(c: Category): AttemptStatus {
    match c
    case DeclinedHard | DeclinedSoft | FraudSuspected | AuthenticationFailed => Declined
    case InvalidRequest | DuplicateRequest | UnsupportedOperation => Declined
    case AuthenticationRequired => NeedsAction
    case ProviderConfigError | ProviderUnavailable | ProviderRateLimited => Unavailable
    case _ => Unknown
  }

  predicate FailoverCategory(c: Category) {
    c.DeclinedSoft? || c.ProviderConfigError? || c.ProviderUnavailable? || c.ProviderRateLimited?
  }

  predicate SoftDeclineCode(code: string) {
    code == "processing_error" || code == "issuer_unavailable" || code == "try_again_later"
  }

  predicate CanFailoverDecline(c: Category, code: string) {
    FailoverCategory(c) && (c.DeclinedSoft? ==> SoftDeclineCode(code))
  }

  datatype AttemptRow = AttemptRow(provider: string, status: AttemptStatus, category: Category, code: string,
                                   reference: string) {

    /** Whether another provider may be tried after this attempt. */
    predicate CanFailover() {
      match status
      case Unavailable => true
      case Declined => CanFailoverDecline(category, code)
      case _ => false
    }

    function MarkApproved(ref: string): AttemptRow {
      this.(status := Approved, reference := ref, category := NoCategory, code := "")
    }

    function MarkRequiresAction(ref: string): AttemptRow {
      this.(status := NeedsAction, reference := ref, category := AuthenticationRequired)
    }

    /** A category that asks for customer action is not a failure to report here; it becomes a decline. */
    function MarkFailed(cat: Category, newCode: string, ref: string): AttemptRow {
      AttemptRow(provider, if StatusFor(cat).NeedsAction? then Declined else StatusFor(cat), cat, newCode,
                 if ref != "" then ref else reference)
    }
  }

  function NewAttempt(provider: string): AttemptRow {
    AttemptRow(provider, AttemptPending, NoCategory, "", "")
  }

  class Attempt {
    var provider: string
    var status: AttemptStatus
    var category: Category
    var code: string
    var reference: string

    function Row(): AttemptRow
      reads this
    {
      AttemptRow(provider, status, category, code, reference)
    }

    constructor (name: string)
      ensures Row() == NewAttempt(name)
    {
      provider, status, category, code, reference := name, AttemptPending, NoCategory, "", "";
    }

    method MarkApproved(ref: string)
      modifies this
      ensures Row() == old(Row()).MarkApproved(ref)
    {
      status, reference := Approved, ref;
      category, code := NoCategory, "";
    }

    method MarkRequiresAction(ref: string)
      modifies this
      ensures Row() == old(Row()).MarkRequiresAction(ref)
    {
      status, reference := NeedsAction, ref;
      category := AuthenticationRequired;
    }

    method MarkFailed(cat: Category, newCode: string, ref: string)
      modifies this
      ensures Row() == old(Row()).MarkFailed(cat, newCode, ref)
    {
      status := StatusFor(cat);
      if status == NeedsAction { status := Declined; }
      category, code := cat, newCode;
      if ref != "" { reference := ref; }
    }
  }

  /** An approval clears the error; an action asked for is remembered as one. */
  lemma AttemptExactly(a: AttemptRow, ref: string)
    ensures a.MarkApproved(ref) == AttemptRow(a.provider, Approved, NoCategory, "", ref)
    ensures a.MarkRequiresAction(ref) == AttemptRow(a.provider, NeedsAction, AuthenticationRequired, a.code, ref)
    ensures NewAttempt(a.provider) == AttemptRow(a.provider, AttemptPending, NoCategory, "", "")
    ensures a.status.IsOpen() <==> a.status in {AttemptPending, NeedsAction, Unknown}
  {
  }

  /** Which attempt status a failure leaves, category by category: what is known to have failed is declined, what
      never reached a decision is unavailable, and everything else, a timeout above all, is unknown. */
  lemma FailureStatusExactly(a: AttemptRow, cat: Category, code: string, ref: string)
    ensures var b := a.MarkFailed(cat, code, ref);
            && b.provider == a.provider && b.category == cat && b.code == code
            && b.reference == (if ref != "" then ref else a.reference)
            && (b.status == Declined <==>
                  cat in {DeclinedHard, DeclinedSoft, FraudSuspected, AuthenticationRequired, AuthenticationFailed,
                          InvalidRequest, DuplicateRequest, UnsupportedOperation})
            && (b.status == Unavailable <==> cat in {ProviderConfigError, ProviderUnavailable, ProviderRateLimited})
            && (b.status == Unknown <==>
                  cat in {NoCategory, ProviderTimeout, UnknownCategory} || cat.OtherCategory?)
  {
  }

  /** After a failure, failing over is allowed exactly for unavailable providers and for soft declines
      with a code that may pass elsewhere; never when the outcome is unknown. */
  lemma FailoverExactlyWhen(a: AttemptRow, cat: Category, code: string, ref: string)
    ensures a.MarkFailed(cat, code, ref).CanFailover() <==>
              || cat.ProviderConfigError? || cat.ProviderUnavailable? || cat.ProviderRateLimited?
              || (cat.DeclinedSoft? && code in {"processing_error", "issuer_unavailable", "try_again_later"})
    ensures a.MarkFailed(cat, code, ref).status.Unknown? ==> !a.MarkFailed(cat, code, ref).CanFailover()
    ensures a.MarkFailed(cat, code, ref).status.IsOpen() <==> a.MarkFailed(cat, code, ref).status.Unknown?
  {
  }
}
