/** The sign-up page's submit handler (src/pages/auth/Signup.tsx): ordered
    client-side checks, then the session store's `signup`, then a redirect
    by role. */
module SignupPage {
  import opened Types
  import opened Session
  import Routes

  const MinPasswordLength := 6

  /** The checks the page runs before calling `signup`, in that order. */
  datatype Problem = MissingField | PasswordMismatch | PasswordTooShort

  function ProblemText(p: Problem): string
  {
    match p
    case MissingField => "Please fill in all required fields"
    case PasswordMismatch => "Passwords do not match"
    case PasswordTooShort => "Password must be at least 6 characters long"
  }

  predicate AllFilled(username: string, email: string, password: string, confirm: string)
  {
    username != "" && email != "" && password != "" && confirm != ""
  }

  /** The first check that fails, or `None` when `signup` may be called. */
  function FirstProblem(username: string, email: string, password: string, confirm: string): (r: Option<Problem>)
    ensures r == Some(MissingField) <==> !AllFilled(username, email, password, confirm)
    ensures r == Some(PasswordMismatch) <==> AllFilled(username, email, password, confirm) && password != confirm
    ensures r == Some(PasswordTooShort) <==>
      AllFilled(username, email, password, confirm) && password == confirm && |password| < MinPasswordLength
    ensures r == None <==>
      AllFilled(username, email, password, confirm) && password == confirm && |password| >= MinPasswordLength
  {
    if !AllFilled(username, email, password, confirm) then Some(MissingField)
    else if password != confirm then Some(PasswordMismatch)
    else if |password| < MinPasswordLength then Some(PasswordTooShort)
    else None
  }

  /** Where a fresh account is sent: its own dashboard. */
  function Landing(role: Role): Routes.Route
  {
    if role == Admin then Routes.AdminDashboard else Routes.CustomerDashboard
  }

  /** After a successful sign-up the page navigates to a dashboard that the
      route guard lets the new user see. */
  lemma SignupLandsOnAdmittedDashboard(s: SessionState, username: string, email: string, password: string, role: Role, freshId: string)
    requires SignupStep(s, username, email, password, role, freshId).outcome == Ok
    ensures Routes.Admission(Landing(role), SignupStep(s, username, email, password, role, freshId).state.user) == Routes.Render
    ensures Routes.Admission(Landing(role), None) == Routes.RedirectTo(Routes.LoginPath)
  {
  }

  /** `handleSubmit`: the first failing check sets the form error and stops;
      otherwise `signup` runs, and its failure message becomes the form error
      or, on success, the page goes to the role's dashboard. */
  method HandleSubmit(session: SessionStore, username: string, email: string, password: string,
                      confirm: string, role: Role, freshId: string)
    returns (formError: string, navigateTo: Option<Routes.Route>)
    requires session.Valid()
    modifies session, session.storage
    ensures session.Valid()
    ensures var problem := FirstProblem(username, email, password, confirm);
      problem.Some? ==>
        && formError == ProblemText(problem.value)
        && navigateTo == None
        && session.State() == old(session.State())
    ensures var step := SignupStep(old(session.State()), username, email, password, role, freshId);
      FirstProblem(username, email, password, confirm) == None ==>
        && session.State() == step.state
        && (step.outcome == Ok ==> formError == "" && navigateTo == Some(Landing(role)))
        && (step.outcome.Err? ==> formError == step.outcome.message && navigateTo == None)
  {
    formError := "";
    navigateTo := None;
    if !AllFilled(username, email, password, confirm) {
      formError := ProblemText(MissingField);
      return;
    }
    if password != confirm {
      formError := ProblemText(PasswordMismatch);
      return;
    }
    if |password| < MinPasswordLength {
      formError := ProblemText(PasswordTooShort);
      return;
    }
    var outcome := session.Signup(username, email, password, role, freshId);
    if outcome == Ok {
      navigateTo := Some(Landing(role));
    } else {
      formError := outcome.message;
    }
  }
}
