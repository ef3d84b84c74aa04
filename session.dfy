/**
 * The session check run once at start-up: when the request for the current
 * user settles, the store receives the user (on success) and is marked as
 * initialised (on success or error).
 */
module Session {
  import opened Wrappers
  import opened Store

  /** The state of the request for the current user. */
  datatype QueryStatus =
    | Pending
    | Success(user: Option<User>)
    | Error

  /** The store actions the effect issues for a query status, in order. */
  function SessionActions(q: QueryStatus): (r: seq<Action>)
    ensures q.Pending? <==> r == []
    ensures !q.Pending? ==> r[|r| - 1] == SetAuthInitialized(true)
    ensures forall i :: 0 <= i < |r| && r[i].SetUser? ==> q.Success? && r[i].newUser == q.user
    ensures forall i :: 0 <= i < |r| ==> !r[i].Logout? && !r[i].SetSearchTerm?
    ensures q.Success? ==> r[0] == Action.SetUser(q.user)
  {
    match q
    case Pending => []
    case Success(u) => [Action.SetUser(u), SetAuthInitialized(true)]
    case Error => [SetAuthInitialized(true)]
  }

  /** The store after the effect has run for status `q`. */
  function AfterSessionCheck(s: StoreState, q: QueryStatus): (r: StoreState)
    ensures r.searchTerm == s.searchTerm
    ensures r.isAuthInitialized == (s.isAuthInitialized || !q.Pending?)
    ensures q.Success? ==> r.user == q.user && (r.isAuthenticated <==> q.user.Some?)
    ensures !q.Success? ==> r.user == s.user && r.isAuthenticated == s.isAuthenticated
  {
    RunShort(s, SetAuthInitialized(true), SetAuthInitialized(true));
    RunShort(s, Action.SetUser(if q.Success? then q.user else None), SetAuthInitialized(true));
    Run(s, SessionActions(q))
  }

  /** The effect's outcome written as single store steps. */
  lemma AfterSessionCheckSteps(s: StoreState, q: QueryStatus)
    ensures q.Pending? ==> AfterSessionCheck(s, q) == s
    ensures q.Success? ==>
      AfterSessionCheck(s, q) == Step(Step(s, Action.SetUser(q.user)), SetAuthInitialized(true))
    ensures q.Error? ==> AfterSessionCheck(s, q) == Step(s, SetAuthInitialized(true))
  {
    RunShort(s, SetAuthInitialized(true), SetAuthInitialized(true));
    if q.Success? {
      RunShort(s, Action.SetUser(q.user), SetAuthInitialized(true));
    }
  }

  /** Success: the store holds the returned user and is initialised; the search term is kept. */
  lemma SessionSuccess(s: StoreState, u: Option<User>)
    ensures var r := AfterSessionCheck(s, Success(u));
      r.user == u && (r.isAuthenticated <==> u.Some?) && r.isAuthInitialized
      && r.searchTerm == s.searchTerm
  {
    AfterSessionCheckSteps(s, Success(u));
  }

  /** Error: the store is initialised and the user and authentication are unchanged. */
  lemma SessionError(s: StoreState)
    ensures AfterSessionCheck(s, Error) == s.(isAuthInitialized := true)
  {
    AfterSessionCheckSteps(s, Error);
  }

  /** Pending: the store is not touched. */
  lemma SessionPending(s: StoreState)
    ensures AfterSessionCheck(s, Pending) == s
  {
  }

  /**
   * The effect only ever sets the initialisation flag to true: an
   * initialised store stays initialised, and it keeps the store's invariant.
   */
  lemma SessionNeverUninitialises(s: StoreState, q: QueryStatus)
    ensures s.isAuthInitialized ==> AfterSessionCheck(s, q).isAuthInitialized
    ensures !q.Pending? ==> AfterSessionCheck(s, q).isAuthInitialized
    ensures AuthConsistent(s) ==> AuthConsistent(AfterSessionCheck(s, q))
  {
    AfterSessionCheckSteps(s, q);
  }

  /** The effect, run against the store object. */
  method SessionEffect(store: TaskStore, q: QueryStatus)
    modifies store
    ensures store.State() == AfterSessionCheck(old(store.State()), q)
  {
    AfterSessionCheckSteps(store.State(), q);
    match q {
      case Pending =>
      case Success(u) =>
        store.SetUser(u);
        store.SetAuthInitialized(true);
      case Error =>
        store.SetAuthInitialized(true);
    }
  }
}
