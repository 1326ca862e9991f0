/** The password-reset page: a session check on load, then a form whose submission is
    validated (matching confirmation first, then at least six UTF-16 code units) before the
    new password is sent to the store. */
module ResetPassword {
  import opened Wrappers
  import Strings

  const MinLength: nat := 6

  datatype Status = Checking | Idle | Success | Error

  datatype Message =
    | SessionExpired
    | Mismatch
    | TooShort
    | UpdateFailed(text: string)

  datatype PageState = PageState(
    password: string,
    confirm: string,
    status: Status,
    error: Option<Message>,
    loading: bool,
    redirect: Option<string>)

  /** The store's answer to `updateUser`. */
  datatype UpdateResult = UpdateOk | UpdateErr(message: string)

  const DefaultUpdateError: string := "Une erreur est survenue lors de la mise à jour."

  function Initial(): PageState {
    PageState("", "", Checking, None, false, None)
  }

  /** The load effect: without a session the link is reported expired. */
  function CheckSession(s: PageState, hasSession: bool): (r: PageState)
    ensures r.status == (if hasSession then Idle else Error)
    ensures !hasSession ==> r.error == Some(SessionExpired)
    ensures r.password == s.password && r.confirm == s.confirm && r.loading == s.loading
  {
    if hasSession then s.(status := Idle) else s.(status := Error, error := Some(SessionExpired))
  }

  /** The form is rendered only while the page is idle: not while checking, not after success,
      not after a session error. */
  predicate FormShown(s: PageState)
    ensures FormShown(s) <==> s.status != Checking && s.status != Success && s.status != Error
    ensures FormShown(s) ==> !RetryOffered(s)
  {
    s.status == Idle
  }

  /** The error banner carries the "new request" button only after a session error. */
  predicate RetryOffered(s: PageState)
    ensures RetryOffered(s) ==> s.status != Idle && s.error.Some?
  {
    s.error.Some? && s.status == Error
  }

  /** The password input's `onChange`: only the password changes. */
  function OnPassword(s: PageState, v: string): (r: PageState)
    ensures r.password == v && r == s.(password := r.password)
  {
    s.(password := v)
  }

  /** The confirmation input's `onChange`: only the confirmation changes. */
  function OnConfirm(s: PageState, v: string): (r: PageState)
    ensures r.confirm == v && r == s.(confirm := r.confirm)
  {
    s.(confirm := v)
  }

  /** Both checks `handleSubmit` makes before calling the store. */
  predicate Acceptable(password: string, confirm: string) {
    password == confirm && Strings.Utf16Length(password) >= MinLength
  }

  /** A submission: the state after it, and whether `updateUser` was called (its answer
      `result` is consulted only then). The browser blocks the submit while a `required` field
      is empty, and there is no form to submit unless it is shown. */
  function Submit(s: PageState, result: UpdateResult): (r: (PageState, bool))
    ensures r.1 <==> FormShown(s) && s.password != "" && s.confirm != "" && Acceptable(s.password, s.confirm)
    ensures r.0.password == s.password && r.0.confirm == s.confirm
  {
    if !FormShown(s) || s.password == "" || s.confirm == "" then (s, false)
    else if s.password != s.confirm then (s.(error := Some(Mismatch), loading := false), false)
    else if Strings.Utf16Length(s.password) < MinLength then (s.(error := Some(TooShort), loading := false), false)
    else
      match result
      case UpdateOk => (s.(status := Success, error := None, loading := true, redirect := Some("/planning")), true)
      case UpdateErr(m) =>
        (s.(error := Some(UpdateFailed(if m == "" then DefaultUpdateError else m)), loading := false), true)
  }

  // ---------------------------------------------------------------- properties

  /** A mismatch is reported first, even when the password is also too short. */
  lemma MismatchReportedFirst(s: PageState, result: UpdateResult)
    requires FormShown(s) && s.password != "" && s.confirm != ""
    requires s.password != s.confirm
    ensures Submit(s, result).0.error == Some(Mismatch)
    ensures !Submit(s, result).1 && !Submit(s, result).0.loading && FormShown(Submit(s, result).0)
  {
  }

  /** Matching but short passwords are refused with the length message. */
  lemma ShortPasswordRefused(s: PageState, result: UpdateResult)
    requires FormShown(s) && s.password != "" && s.password == s.confirm
    requires Strings.Utf16Length(s.password) < MinLength
    ensures Submit(s, result).0.error == Some(TooShort)
    ensures !Submit(s, result).1
  {
  }

  /** Accepted and stored: the success view, no form, and a pending move to the planning. */
  lemma AcceptedAndStored(s: PageState)
    requires FormShown(s) && s.password != "" && Acceptable(s.password, s.confirm)
    ensures var r := Submit(s, UpdateOk);
            r.1 && r.0.status == Success && r.0.error == None && !FormShown(r.0) && r.0.redirect == Some("/planning")
  {
  }

  /** Accepted but refused by the store: the form stays, with the store's message or the
      default one, and can be submitted again. */
  lemma AcceptedButRefused(s: PageState, m: string)
    requires FormShown(s) && s.password != "" && Acceptable(s.password, s.confirm)
    ensures var r := Submit(s, UpdateErr(m));
            && r.1 && r.0.status == s.status && FormShown(r.0) && !r.0.loading
            && r.0.error == Some(UpdateFailed(if m == "" then DefaultUpdateError else m))
  {
  }

  /** Without a session the form never appears and no submission reaches the store. */
  lemma ExpiredLinkNeverUpdates(password: string, confirm: string, result: UpdateResult)
    ensures var s := CheckSession(Initial(), false).(password := password, confirm := confirm);
            !FormShown(s) && RetryOffered(s) && !Submit(s, result).1
  {
  }

  /** Nothing can be submitted before the session check has answered. */
  lemma CheckingBlocksSubmit(s: PageState, result: UpdateResult)
    requires s.status == Checking
    ensures Submit(s, result) == (s, false)
  {
  }

  /** The length is counted in UTF-16 code units: three characters outside the Basic
      Multilingual Plane already make six, while five plain letters do not. */
  lemma LengthInCodeUnits()
    ensures Acceptable("\U{1F600}\U{1F600}\U{1F600}", "\U{1F600}\U{1F600}\U{1F600}")
    ensures !Acceptable("abcde", "abcde")
  {
  }
}
