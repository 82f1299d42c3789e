/**
 * The login dialog (src/components/LoginWindow.tsx): a two-mode form
 * (sign in / sign up) whose submit clears the error, enters the submitting
 * state, rejects a sign-up whose passwords differ without calling the
 * identity provider, and otherwise awaits the provider and then either runs
 * the parent's callbacks or shows the provider's message.
 *
 * The provider is abstract: a submit records the call it makes, and the
 * awaited result arrives later as an `Outcome`. Callbacks to the parent are
 * recorded in a trace.
 */
module LoginWindow {
  import opened Common

  datatype Mode = SignIn | SignUp

  /** A call into the identity provider. */
  datatype ProviderCall =
    | SignInWithEmailAndPassword(email: string, password: string)
    | CreateUserWithEmailAndPassword(email: string, password: string)

  /** How an awaited provider call settles: resolved, or rejected with an error message. */
  datatype Outcome = Resolved | Rejected(message: string)

  /** A callback prop invoked on the parent. */
  datatype Callback = LoggedIn | Closed

  const MismatchMessage: string := "Passwords do not match"
  const WaitLabel: string := "Please wait\U{2026}"

  /** The heading, and the submit label while idle. */
  function Title(mode: Mode): string {
    if mode == SignIn then "Sign In" else "Create Account"
  }

  /** The submit button's label. */
  function SubmitLabel(mode: Mode, submitting: bool): (text: string)
    ensures submitting ==> text == WaitLabel
    ensures !submitting ==> text == Title(mode)
  {
    if submitting then WaitLabel else Title(mode)
  }

  /** The label tells the three button states apart. */
  lemma SubmitLabelDistinguishes(m1: Mode, s1: bool, m2: Mode, s2: bool)
    ensures SubmitLabel(m1, s1) == SubmitLabel(m2, s2) <==> s1 == s2 && (s1 || m1 == m2)
  {
  }

  /** The provider operation a submit awaits in the given mode. */
  function ProviderCallFor(mode: Mode, email: string, password: string): (call: ProviderCall)
    ensures call.email == email && call.password == password
    ensures call.SignInWithEmailAndPassword? <==> mode == SignIn
  {
    if mode == SignIn then SignInWithEmailAndPassword(email, password)
    else CreateUserWithEmailAndPassword(email, password)
  }

  /** A sign-up whose confirmation differs stops before the provider; sign-in never compares. */
  predicate IsMismatch(mode: Mode, password: string, confirmPassword: string) {
    mode == SignUp && password != confirmPassword
  }

  /** The callbacks a successful submit runs, in order, each only if supplied. */
  function SuccessCallbacks(hasOnLoggedIn: bool, hasOnClose: bool): (cs: seq<Callback>)
    ensures LoggedIn in cs <==> hasOnLoggedIn
    ensures Closed in cs <==> hasOnClose
    ensures |cs| == (if hasOnLoggedIn then 1 else 0) + (if hasOnClose then 1 else 0)
    ensures |cs| == 2 ==> cs == [LoggedIn, Closed]
  {
    (if hasOnLoggedIn then [LoggedIn] else []) + (if hasOnClose then [Closed] else [])
  }

  class LoginDialog {
    const hasOnClose: bool
    const hasOnLoggedIn: bool
    var mode: Mode
    var email: string
    var password: string
    var confirmPassword: string
    var submitting: bool
    var error: Option<string>
    /** The provider call the pending submit awaits. */
    var inFlight: Option<ProviderCall>
    /** Every provider call made, oldest first. */
    var providerCalls: seq<ProviderCall>
    /** Every callback invoked on the parent, oldest first. */
    var callbacks: seq<Callback>

    /**
     * The submitting flag is set exactly while a provider call is awaited;
     * that call is the latest one made, and no error is shown meanwhile.
     */
    ghost predicate Valid()
      reads this
    {
      && (submitting <==> inFlight.Some?)
      && (inFlight.Some? ==>
            error.None? && |providerCalls| > 0 && providerCalls[|providerCalls| - 1] == inFlight.value)
    }

    /** Mounting: sign-in mode, empty fields, not submitting, no error. */
    constructor (hasOnClose: bool, hasOnLoggedIn: bool)
      ensures Valid()
      ensures this.hasOnClose == hasOnClose && this.hasOnLoggedIn == hasOnLoggedIn
      ensures mode == SignIn && email == "" && password == "" && confirmPassword == ""
      ensures !submitting && error.None?
      ensures providerCalls == [] && callbacks == []
    {
      this.hasOnClose := hasOnClose;
      this.hasOnLoggedIn := hasOnLoggedIn;
      mode := SignIn;
      email, password, confirmPassword := "", "", "";
      submitting := false;
      error := None;
      inFlight := None;
      providerCalls, callbacks := [], [];
    }

    /** A tab click. */
    method SelectMode(m: Mode)
      requires Valid()
      modifies this`mode
      ensures Valid() && mode == m
    {
      mode := m;
    }

    method SetEmail(v: string)
      requires Valid()
      modifies this`email
      ensures Valid() && email == v
    {
      email := v;
    }

    method SetPassword(v: string)
      requires Valid()
      modifies this`password
      ensures Valid() && password == v
    {
      password := v;
    }

    method SetConfirmPassword(v: string)
      requires Valid()
      modifies this`confirmPassword
      ensures Valid() && confirmPassword == v
    {
      confirmPassword := v;
    }

    /** The close button (rendered only when `onClose` was supplied). */
    method Close()
      requires Valid() && hasOnClose
      modifies this`callbacks
      ensures Valid() && callbacks == old(callbacks) + [Closed]
    {
      callbacks := callbacks + [Closed];
    }

    /**
     * The synchronous part of `handleSubmit`, up to the first `await`: the
     * error is cleared and submitting is set; a mismatched sign-up sets its
     * own error and leaves the submitting state at once; otherwise the
     * provider call for the mode is made and awaited. The submit control is
     * disabled while submitting, so a submit cannot start during another.
     */
    method Submit()
      requires Valid() && !submitting
      modifies this`error, this`submitting, this`inFlight, this`providerCalls
      ensures Valid()
      ensures IsMismatch(mode, password, confirmPassword) ==>
                && error == Some(MismatchMessage) && !submitting
                && providerCalls == old(providerCalls)
      ensures !IsMismatch(mode, password, confirmPassword) ==>
                && error.None? && submitting
                && inFlight == Some(ProviderCallFor(mode, email, password))
                && providerCalls == old(providerCalls) + [inFlight.value]
    {
      error := None;
      submitting := true;
      if mode == SignUp && password != confirmPassword {
        error := Some(MismatchMessage);
        submitting := false;
        return;
      }
      var call := ProviderCallFor(mode, email, password);
      providerCalls := providerCalls + [call];
      inFlight := Some(call);
    }

    /**
     * The rest of `handleSubmit`, once the awaited call settles: on success
     * `onLoggedIn` then `onClose`, each if supplied; on failure the
     * provider's message; in both cases submitting ends.
     */
    method Settle(outcome: Outcome)
      requires Valid() && inFlight.Some?
      modifies this`error, this`submitting, this`inFlight, this`callbacks
      ensures Valid() && !submitting
      ensures providerCalls == old(providerCalls)
      ensures outcome.Resolved? ==>
                error.None? && callbacks == old(callbacks) + SuccessCallbacks(hasOnLoggedIn, hasOnClose)
      ensures outcome.Rejected? ==>
                error == Some(outcome.message) && callbacks == old(callbacks)
    {
      match outcome {
        case Resolved =>
          if hasOnLoggedIn { callbacks := callbacks + [LoggedIn]; }
          if hasOnClose { callbacks := callbacks + [Closed]; }
        case Rejected(msg) =>
          error := Some(msg);
      }
      submitting := false;
      inFlight := None;
    }

    /** One whole submit whose provider call (if made) settles with `outcome`. */
    method HandleSubmit(outcome: Outcome)
      requires Valid() && !submitting
      modifies this`error, this`submitting, this`inFlight, this`providerCalls, this`callbacks
      ensures Valid() && !submitting
      ensures IsMismatch(mode, password, confirmPassword) ==>
                && error == Some(MismatchMessage)
                && providerCalls == old(providerCalls) && callbacks == old(callbacks)
      ensures !IsMismatch(mode, password, confirmPassword) ==>
                && providerCalls == old(providerCalls) + [ProviderCallFor(mode, email, password)]
                && (outcome.Resolved? ==>
                      error.None? && callbacks == old(callbacks) + SuccessCallbacks(hasOnLoggedIn, hasOnClose))
                && (outcome.Rejected? ==>
                      error == Some(outcome.message) && callbacks == old(callbacks))
    {
      Submit();
      if inFlight.Some? {
        Settle(outcome);
      }
    }

    /** The submit control is disabled exactly while a provider call is awaited. */
    function SubmitDisabled(): (disabled: bool)
      reads this
      requires Valid()
      ensures disabled <==> inFlight.Some?
      ensures disabled ==> SubmitLabel(mode, submitting) == WaitLabel
    {
      submitting
    }

    /**
     * The confirm-password field is rendered only in sign-up mode, and only
     * then can its content stop a submit: hidden, no confirmation mismatches;
     * shown, exactly those differing from the password do.
     */
    function ConfirmVisible(): (visible: bool)
      reads this
      ensures visible <==> mode == SignUp
      ensures !visible ==> forall c :: !IsMismatch(mode, password, c)
      ensures visible ==> forall c :: IsMismatch(mode, password, c) <==> c != password
    {
      mode == SignUp
    }
  }
}
