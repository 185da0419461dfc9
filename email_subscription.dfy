/** The subscription form of the dashboard
    (client/src/components/dashboard/EmailSubscription.tsx): an email field, a
    dialog asking for the six-digit code, and a loading flag that disables
    both buttons. Each handler awaits a one-second timer, so it runs in two
    steps: the click, and the continuation when the timer fires. Toasts are
    recorded in order. */
module EmailSubscription {

  datatype Toast = Toast(isError: bool, text: string)

  /** Which handler is waiting for its timer. */
  datatype Pending = Idle | AwaitingRequest | AwaitingVerify

  const InvalidEmailToast: Toast := Toast(true, "유효한 이메일 주소를 입력해주세요.")
  const CodeSentToast: Toast := Toast(false, "인증번호가 발송되었습니다! 메일함을 확인해주세요.")
  const ShortCodeToast: Toast := Toast(true, "6자리 인증번호를 입력해주세요.")
  const SubscribedToast: Toast := Toast(false, "구독이 완료되었습니다! 내일부터 리포트가 발송됩니다.")

  const CodeLength: nat := 6

  /** `!email || !email.includes('@')` negated. */
  predicate AcceptableEmail(email: string) {
    email != "" && '@' in email
  }

  class SubscriptionForm {
    var email: string
    var isDialogOpen: bool
    var verifyCode: string
    var isLoading: bool
    var pending: Pending
    var toasts: seq<Toast>

    /** The loading flag is set exactly while a handler awaits its timer, and
        the code field holds at most six characters (`maxLength={6}`). */
    ghost predicate Valid()
      reads this
    {
      (isLoading <==> pending != Idle) && |verifyCode| <= CodeLength
    }

    constructor()
      ensures Valid()
      ensures email == "" && !isDialogOpen && verifyCode == "" && !isLoading && toasts == []
    {
      email := "";
      isDialogOpen := false;
      verifyCode := "";
      isLoading := false;
      pending := Idle;
      toasts := [];
    }

    /** Typing in the email field. */
    method SetEmail(value: string)
      requires Valid()
      modifies this
      ensures Valid()
      ensures email == value
      ensures isDialogOpen == old(isDialogOpen) && verifyCode == old(verifyCode)
      ensures isLoading == old(isLoading) && pending == old(pending) && toasts == old(toasts)
    {
      email := value;
    }

    /** Typing in the code field, which keeps at most six characters. */
    method SetVerifyCode(value: string)
      requires Valid()
      modifies this
      ensures Valid()
      ensures verifyCode == if |value| <= CodeLength then value else value[..CodeLength]
      ensures email == old(email) && isDialogOpen == old(isDialogOpen)
      ensures isLoading == old(isLoading) && pending == old(pending) && toasts == old(toasts)
    {
      verifyCode := if |value| <= CodeLength then value else value[..CodeLength];
    }

    /** The subscribe button (`handleRequestCode` up to its await). While
        loading the button is disabled and a click does nothing. An
        unacceptable email only adds an error toast. */
    method ClickSubscribe()
      requires Valid()
      modifies this
      ensures Valid()
      ensures email == old(email) && isDialogOpen == old(isDialogOpen) && verifyCode == old(verifyCode)
      ensures old(isLoading) ==> isLoading && pending == old(pending) && toasts == old(toasts)
      ensures !old(isLoading) && !AcceptableEmail(email) ==>
        !isLoading && pending == Idle && toasts == old(toasts) + [InvalidEmailToast]
      ensures !old(isLoading) && AcceptableEmail(email) ==>
        isLoading && pending == AwaitingRequest && toasts == old(toasts)
    {
      if isLoading {
        return;
      }
      if !AcceptableEmail(email) {
        toasts := toasts + [InvalidEmailToast];
        return;
      }
      isLoading := true;
      pending := AwaitingRequest;
    }

    /** The rest of `handleRequestCode` once its timer fires: loading ends and
        the dialog opens. */
    method ResumeRequest()
      requires Valid() && pending == AwaitingRequest
      modifies this
      ensures Valid()
      ensures !isLoading && pending == Idle && isDialogOpen
      ensures toasts == old(toasts) + [CodeSentToast]
      ensures email == old(email) && verifyCode == old(verifyCode)
    {
      isLoading := false;
      pending := Idle;
      isDialogOpen := true;
      toasts := toasts + [CodeSentToast];
    }

    /** The confirm button (`handleVerify` up to its await). While loading it
        is disabled; a code shorter than six characters only adds an error
        toast. */
    method ClickVerify()
      requires Valid()
      modifies this
      ensures Valid()
      ensures email == old(email) && isDialogOpen == old(isDialogOpen) && verifyCode == old(verifyCode)
      ensures old(isLoading) ==> isLoading && pending == old(pending) && toasts == old(toasts)
      ensures !old(isLoading) && |verifyCode| < CodeLength ==>
        !isLoading && pending == Idle && toasts == old(toasts) + [ShortCodeToast]
      ensures !old(isLoading) && |verifyCode| >= CodeLength ==>
        isLoading && pending == AwaitingVerify && toasts == old(toasts)
    {
      if isLoading {
        return;
      }
      if |verifyCode| < CodeLength {
        toasts := toasts + [ShortCodeToast];
        return;
      }
      isLoading := true;
      pending := AwaitingVerify;
    }

    /** The rest of `handleVerify`: the dialog closes and both fields are cleared. */
    method ResumeVerify()
      requires Valid() && pending == AwaitingVerify
      modifies this
      ensures Valid()
      ensures !isLoading && pending == Idle && !isDialogOpen
      ensures email == "" && verifyCode == ""
      ensures toasts == old(toasts) + [SubscribedToast]
    {
      isLoading := false;
      pending := Idle;
      isDialogOpen := false;
      toasts := toasts + [SubscribedToast];
      email := "";
      verifyCode := "";
    }

    /** The cancel button, and the dialog's own close (`onOpenChange`): only
        the dialog flag changes. */
    method SetDialogOpen(open: bool)
      requires Valid()
      modifies this
      ensures Valid()
      ensures isDialogOpen == open
      ensures email == old(email) && verifyCode == old(verifyCode)
      ensures isLoading == old(isLoading) && pending == old(pending) && toasts == old(toasts)
    {
      isDialogOpen := open;
    }

    method Cancel()
      requires Valid()
      modifies this
      ensures Valid()
      ensures !isDialogOpen
      ensures email == old(email) && verifyCode == old(verifyCode)
      ensures isLoading == old(isLoading) && pending == old(pending) && toasts == old(toasts)
    {
      SetDialogOpen(false);
    }
  }
}
