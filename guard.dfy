/** The guard in front of the board's route. */
module Guard {
  import opened Wrappers
  import opened Store
  import opened Session

  /** What the guard renders. */
  datatype Outcome =
    | Loading
    | RenderChild
    | Redirect(to: string, replace: bool)

  const LoginPath: string := "/login"

  /**
   * Loading while the session has not been checked, whatever the
   * authentication flag says; then the protected child when authenticated,
   * otherwise a redirect to the login page that replaces the history entry.
   */
  function Decide(isAuthenticated: bool, isAuthInitialized: bool): (r: Outcome)
    ensures !isAuthInitialized ==> r == Loading
    ensures isAuthInitialized && isAuthenticated ==> r == RenderChild
    ensures isAuthInitialized && !isAuthenticated ==> r == Redirect(LoginPath, true)
  {
    if !isAuthInitialized then Loading
    else if isAuthenticated then RenderChild
    else Redirect(LoginPath, true)
  }

  /** The guard's decision for a store state. */
  function DecideFor(s: StoreState): Outcome
  {
    Decide(s.isAuthenticated, s.isAuthInitialized)
  }

  /** With the store's invariant, the child is rendered exactly when the session is checked and a user is held. */
  lemma RenderChildOnlyWithUser(s: StoreState)
    requires AuthConsistent(s)
    ensures DecideFor(s) == RenderChild <==> s.isAuthInitialized && s.user.Some?
  {
  }

  /** In every state reachable from the initial store, rendering the child implies a user is held. */
  lemma ReachableRenderChildHasUser(actions: seq<Action>)
    ensures DecideFor(Run(InitialState, actions)) == RenderChild ==> Run(InitialState, actions).user.Some?
  {
    ReachableAuthConsistent(actions);
  }

  /**
   * Starting from the initial store, the guard shows loading while the
   * session check is pending, the child after a successful check that
   * returned a user, and the login redirect after any other outcome.
   */
  lemma GuardAfterStartup(q: QueryStatus)
    ensures var r := DecideFor(AfterSessionCheck(InitialState, q));
      && (q.Pending? ==> r == Loading)
      && (q.Success? && q.user.Some? ==> r == RenderChild)
      && (q.Success? && q.user.None? ==> r == Redirect(LoginPath, true))
      && (q.Error? ==> r == Redirect(LoginPath, true))
  {
    match q {
      case Pending => SessionPending(InitialState);
      case Success(u) => SessionSuccess(InitialState, u);
      case Error => SessionError(InitialState);
    }
  }
}
