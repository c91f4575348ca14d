/** The form that replaces the initial password: its validation, the order of
    its calls and what it shows. */
module InitialPassword {
  import opened Sessions
  import opened Gateway

  const MinLength := 6
  const TooShort := "La nueva contraseña debe tener al menos 6 caracteres."
  const Mismatch := "Las nuevas contraseñas no coinciden."
  const NoUser := "Error de autenticación. No se pudo obtener el usuario actual. Intenta iniciar sesión de nuevo."
  const UpdateFailedPrefix := "Error al actualizar la contraseña en Auth: "
  const FlagFailed := "Tu contraseña ha sido actualizada en el sistema de autenticación, pero ocurrió un error al actualizar el estado de tu perfil para reflejar este cambio. Por favor, intenta iniciar sesión de nuevo. Si el problema persiste, contacta a soporte."
  const Updated := "Contraseña actualizada exitosamente. Serás redirigido al dashboard."
  const RedirectDelayMs := 2500
  const DashboardPath := "/"

  /** One step of a submit: a change of what the form shows, or a call out. */
  datatype Step =
    | ClearFeedback
    | SetError(text: string)
    | SetMessage(text: string)
    | SetLoading(on: bool)
    | GetUser
    | UpdatePassword(password: string)
    | UpdateFlag(user: UserId)
    | NavigateLater(path: string, delayMs: int)

  /** What the form shows. */
  datatype Feedback = Feedback(error: string, message: string, loading: bool)

  function Apply(step: Step, f: Feedback): Feedback
  {
    match step
    case ClearFeedback => f.(error := "", message := "")
    case SetError(t) => f.(error := t)
    case SetMessage(t) => f.(message := t)
    case SetLoading(b) => f.(loading := b)
    case _ => f
  }

  /** What the form shows after the steps, in order. */
  function Replay(steps: seq<Step>, f: Feedback): Feedback
    decreases |steps|
  {
    if steps == [] then f else Replay(steps[1..], Apply(steps[0], f))
  }

  lemma {:induction false} ReplaySnoc(steps: seq<Step>, step: Step, f: Feedback)
    ensures Replay(steps + [step], f) == Apply(step, Replay(steps, f))
    decreases |steps|
  {
    if steps != [] {
      assert (steps + [step])[1..] == steps[1..] + [step];
      ReplaySnoc(steps[1..], step, Apply(steps[0], f));
    }
  }

  /** The checks made before anything is called. */
  predicate Acceptable(password: string, confirmation: string)
  {
    |password| >= MinLength && password == confirmation
  }

  /** The steps of `handleSubmit`. `user` is what the current-user lookup
      returns (None when it fails), `updateError` the message of a failed
      password update, `flagUpdated` what the profile flag update reports. */
  function SubmitSteps(password: string, confirmation: string, user: Option<UserId>,
                       updateError: Option<string>, flagUpdated: bool): seq<Step>
  {
    [ClearFeedback] +
    if |password| < MinLength then [SetError(TooShort)]
    else if password != confirmation then [SetError(Mismatch)]
    else [SetLoading(true), GetUser] + AfterLookup(password, user, updateError, flagUpdated)
  }

  /** The steps once the form is accepted and loading is on. */
  function AfterLookup(password: string, user: Option<UserId>, updateError: Option<string>, flagUpdated: bool): seq<Step>
  {
    if user.None? then [SetError(NoUser), SetLoading(false)]
    else if updateError.Some? then [UpdatePassword(password), SetError(UpdateFailedPrefix + updateError.value), SetLoading(false)]
    else if flagUpdated then
      [UpdatePassword(password), UpdateFlag(user.value), SetMessage(Updated), NavigateLater(DashboardPath, RedirectDelayMs), SetLoading(false)]
    else [UpdatePassword(password), UpdateFlag(user.value), SetError(FlagFailed), SetLoading(false)]
  }

  /** A submit starts by clearing the feedback; a short password is refused
      before the confirmation is compared, and a refused form calls nothing. */
  lemma SubmitValidatesFirst(password: string, confirmation: string, user: Option<UserId>,
                             updateError: Option<string>, flagUpdated: bool)
    ensures var t := SubmitSteps(password, confirmation, user, updateError, flagUpdated);
            && t[0] == ClearFeedback
            && (|password| < MinLength ==> t == [ClearFeedback, SetError(TooShort)])
            && (|password| >= MinLength && password != confirmation ==> t == [ClearFeedback, SetError(Mismatch)])
            && (GetUser in t <==> Acceptable(password, confirmation))
            && (forall p :: UpdatePassword(p) in t ==> p == password && Acceptable(password, confirmation))
  {
  }

  /** The profile flag is written only after the lookup and the password
      update both succeed, for the user the lookup returned; the redirect is
      scheduled only when the flag update reports success. */
  lemma SubmitOrder(password: string, confirmation: string, user: Option<UserId>,
                    updateError: Option<string>, flagUpdated: bool)
    ensures var t := SubmitSteps(password, confirmation, user, updateError, flagUpdated);
            && (forall u :: UpdateFlag(u) in t <==> Acceptable(password, confirmation) && user == Some(u) && updateError.None?)
            && (NavigateLater(DashboardPath, RedirectDelayMs) in t <==>
                  Acceptable(password, confirmation) && user.Some? && updateError.None? && flagUpdated)
  {
  }

  lemma {:induction false} ReplayAppend(a: seq<Step>, b: seq<Step>, f: Feedback)
    ensures Replay(a + b, f) == Replay(b, Replay(a, f))
    decreases |a|
  {
    if a == [] {
      assert a + b == b;
    } else {
      assert (a + b)[1..] == a[1..] + b;
      ReplayAppend(a[1..], b, Apply(a[0], f));
    }
  }

  /** Steps that leave the error and the message alone. */
  predicate Quiet(steps: seq<Step>)
  {
    forall i :: 0 <= i < |steps| ==> !steps[i].ClearFeedback? && !steps[i].SetError? && !steps[i].SetMessage?
  }

  lemma {:induction false} QuietKeepsText(steps: seq<Step>, f: Feedback)
    requires Quiet(steps)
    ensures Replay(steps, f).error == f.error && Replay(steps, f).message == f.message
    decreases |steps|
  {
    if steps != [] {
      QuietKeepsText(steps[1..], Apply(steps[0], f));
    }
  }

  /** After clearing, quiet steps, one text and quiet steps again, the form
      shows that text and nothing else. */
  lemma ReplayOneText(before: seq<Step>, text: Step, after: seq<Step>, f: Feedback)
    requires Quiet(before) && Quiet(after) && (text.SetError? || text.SetMessage?)
    ensures var r := Replay([ClearFeedback] + before + [text] + after, f);
            && r.error == (if text.SetError? then text.text else "")
            && r.message == (if text.SetMessage? then text.text else "")
  {
    ReplayAppend([ClearFeedback] + before, [text] + after, f);
    assert [ClearFeedback] + before + [text] + after == ([ClearFeedback] + before) + ([text] + after);
    ReplayAppend([ClearFeedback], before, f);
    QuietKeepsText(before, Apply(ClearFeedback, f));
    var g := Replay([ClearFeedback] + before, f);
    assert ([text] + after)[1..] == after;
    QuietKeepsText(after, Apply(text, g));
  }

  /** Whatever happens, a submit that turned loading on turns it off again,
      and one that did not leaves it as it was. */
  lemma SubmitEndsNotLoading(password: string, confirmation: string, user: Option<UserId>,
                             updateError: Option<string>, flagUpdated: bool, f: Feedback)
    ensures var after := Replay(SubmitSteps(password, confirmation, user, updateError, flagUpdated), f);
            && (Acceptable(password, confirmation) ==> !after.loading)
            && (!Acceptable(password, confirmation) ==> after.loading == f.loading)
  {
    var t := SubmitSteps(password, confirmation, user, updateError, flagUpdated);
    if !Acceptable(password, confirmation) {
      ReplaySnoc([ClearFeedback], t[1], f);
      assert t == [ClearFeedback] + [t[1]];
    } else {
      var front := t[..|t| - 1];
      assert t == front + [SetLoading(false)];
      ReplaySnoc(front, SetLoading(false), f);
    }
  }

  /** The form ends showing the success message exactly when the flag update
      succeeded, and an error on every other path. */
  lemma SubmitEndsWithText(password: string, confirmation: string, user: Option<UserId>,
                           updateError: Option<string>, flagUpdated: bool, f: Feedback)
    ensures var after := Replay(SubmitSteps(password, confirmation, user, updateError, flagUpdated), f);
            var success := Acceptable(password, confirmation) && user.Some? && updateError.None? && flagUpdated;
            && (success ==> after.message == Updated && after.error == "")
            && (!success ==> after.message == "" && after.error != "")
  {
    var t := SubmitSteps(password, confirmation, user, updateError, flagUpdated);
    if !Acceptable(password, confirmation) {
      var e := if |password| < MinLength then TooShort else Mismatch;
      assert t == [ClearFeedback] + [] + [SetError(e)] + [];
      ReplayOneText([], SetError(e), [], f);
    } else if user.None? {
      assert t == [ClearFeedback] + [SetLoading(true), GetUser] + [SetError(NoUser)] + [SetLoading(false)];
      ReplayOneText([SetLoading(true), GetUser], SetError(NoUser), [SetLoading(false)], f);
    } else if updateError.Some? {
      var e := UpdateFailedPrefix + updateError.value;
      assert t == [ClearFeedback] + [SetLoading(true), GetUser, UpdatePassword(password)] + [SetError(e)] + [SetLoading(false)];
      ReplayOneText([SetLoading(true), GetUser, UpdatePassword(password)], SetError(e), [SetLoading(false)], f);
    } else {
      var before := [SetLoading(true), GetUser, UpdatePassword(password), UpdateFlag(user.value)];
      if flagUpdated {
        var after := [NavigateLater(DashboardPath, RedirectDelayMs), SetLoading(false)];
        assert t == [ClearFeedback] + before + [SetMessage(Updated)] + after;
        ReplayOneText(before, SetMessage(Updated), after, f);
      } else {
        assert t == [ClearFeedback] + before + [SetError(FlagFailed)] + [SetLoading(false)];
        ReplayOneText(before, SetError(FlagFailed), [SetLoading(false)], f);
      }
    }
  }

  /** The state of the form. */
  class SetInitialPasswordForm {
    var password: string
    var confirmation: string
    var error: string
    var message: string
    var loading: bool

    function Shown(): Feedback
      reads this
    {
      Feedback(error, message, loading)
    }

    constructor()
      ensures password == "" && confirmation == "" && Shown() == Feedback("", "", false)
    {
      password := "";
      confirmation := "";
      error := "";
      message := "";
      loading := false;
    }

    /** Typing in the two fields. */
    method Type(newPassword: string, newConfirmation: string)
      modifies this`password, this`confirmation
      ensures password == newPassword && confirmation == newConfirmation
    {
      password := newPassword;
      confirmation := newConfirmation;
    }

    /** Takes one step, keeping what the form shows equal to the replay of
        the steps taken so far from `start`. */
    method Do(steps: seq<Step>, step: Step, ghost start: Feedback) returns (next: seq<Step>)
      requires Shown() == Replay(steps, start)
      modifies this`error, this`message, this`loading
      ensures next == steps + [step]
      ensures Shown() == Replay(next, start)
    {
      ReplaySnoc(steps, step, start);
      match step {
        case ClearFeedback => error := ""; message := "";
        case SetError(t) => error := t;
        case SetMessage(t) => message := t;
        case SetLoading(b) => loading := b;
        case _ =>
      }
      next := steps + [step];
    }

    /** `handleSubmit`: the steps taken are those the inputs call for, the
        profile flag is cleared through the backend, and the form shows what
        the steps leave. `user`, `updateError` and `flagOk` are the outcomes
        of the two authentication calls and of the profile update. */
    method Submit(backend: Backend, user: Option<UserId>, updateError: Option<string>, now: int, flagOk: bool)
      returns (steps: seq<Step>)
      modifies this`error, this`message, this`loading, backend`profiles
      ensures steps == SubmitSteps(password, confirmation, user, updateError,
                                   KnownUser(user) && backend.configured && flagOk)
      ensures Shown() == Replay(steps, old(Shown()))
      ensures backend.profiles ==
                if Acceptable(password, confirmation) && user.Some? && updateError.None?
                   && KnownUser(user) && backend.configured && flagOk && user.value in old(backend.profiles)
                then old(backend.profiles)[user.value := Profile(false, now)]
                else old(backend.profiles)
    {
      ghost var start := Shown();
      steps := Do([], ClearFeedback, start);
      if |password| < MinLength {
        steps := Do(steps, SetError(TooShort), start);
        return;
      }
      if password != confirmation {
        steps := Do(steps, SetError(Mismatch), start);
        return;
      }
      steps := Do(steps, SetLoading(true), start);
      steps := Do(steps, GetUser, start);
      assert steps == [ClearFeedback, SetLoading(true), GetUser];
      steps := FinishSubmit(backend, steps, start, user, updateError, now, flagOk);
    }

    /** The part of `handleSubmit` after loading is on and the current user
        was asked for. */
    method FinishSubmit(backend: Backend, done: seq<Step>, ghost start: Feedback, user: Option<UserId>,
                        updateError: Option<string>, now: int, flagOk: bool) returns (steps: seq<Step>)
      requires Shown() == Replay(done, start)
      modifies this`error, this`message, this`loading, backend`profiles
      ensures steps == done + AfterLookup(password, user, updateError, KnownUser(user) && backend.configured && flagOk)
      ensures Shown() == Replay(steps, start)
      ensures backend.profiles ==
                if user.Some? && updateError.None? && KnownUser(user) && backend.configured && flagOk
                   && user.value in old(backend.profiles)
                then old(backend.profiles)[user.value := Profile(false, now)]
                else old(backend.profiles)
    {
      steps := done;
      if user.None? {
        steps := Do(steps, SetError(NoUser), start);
        steps := Do(steps, SetLoading(false), start);
        return;
      }
      steps := Do(steps, UpdatePassword(password), start);
      if updateError.Some? {
        steps := Do(steps, SetError(UpdateFailedPrefix + updateError.value), start);
        steps := Do(steps, SetLoading(false), start);
        return;
      }
      steps := UpdateFlagStep(backend, steps, start, user.value, now, flagOk);
    }

    /** The end of `handleSubmit`: the profile flag update and what follows it. */
    method UpdateFlagStep(backend: Backend, done: seq<Step>, ghost start: Feedback, user: UserId, now: int, flagOk: bool)
      returns (steps: seq<Step>)
      requires Shown() == Replay(done, start)
      modifies this`error, this`message, this`loading, backend`profiles
      ensures var flagUpdated := user != "" && backend.configured && flagOk;
              steps == done + [UpdateFlag(user)]
                       + (if flagUpdated then [SetMessage(Updated), NavigateLater(DashboardPath, RedirectDelayMs)]
                          else [SetError(FlagFailed)])
                       + [SetLoading(false)]
      ensures Shown() == Replay(steps, start)
      ensures backend.profiles ==
                if user != "" && backend.configured && flagOk && user in old(backend.profiles)
                then old(backend.profiles)[user := Profile(false, now)]
                else old(backend.profiles)
    {
      steps := Do(done, UpdateFlag(user), start);
      var flagUpdated := backend.UpdateUserPasswordChangeFlag(Some(user), false, now, flagOk);
      if flagUpdated {
        steps := Do(steps, SetMessage(Updated), start);
        steps := Do(steps, NavigateLater(DashboardPath, RedirectDelayMs), start);
      } else {
        steps := Do(steps, SetError(FlagFailed), start);
      }
      steps := Do(steps, SetLoading(false), start);
    }
  }
}
