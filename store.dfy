/**
 * The UI store: the search term and the authentication flags, changed only
 * through its four actions. Each action overwrites the fields it names and
 * leaves the others as they were.
 */
module Store {
  import opened Wrappers

  /** The signed-in user as the session check returns it; only its presence matters here. */
  datatype User = User(id: string, email: string)

  datatype StoreState = StoreState(
    searchTerm: string,
    user: Option<User>,
    isAuthenticated: bool,
    isAuthInitialized: bool)

  /** The store before any action: no search, no user, session not yet checked. */
  const InitialState: StoreState := StoreState("", None, false, false)

  /** The store's invariant: it reports itself authenticated exactly when it holds a user. */
  predicate AuthConsistent(s: StoreState)
  {
    s.isAuthenticated <==> s.user.Some?
  }

  /** The store's actions. */
  datatype Action =
    | SetSearchTerm(term: string)
    | SetUser(newUser: Option<User>)
    | Logout
    | SetAuthInitialized(value: bool)

  /** The state after one action. */
  function Step(s: StoreState, a: Action): (r: StoreState)
    ensures a.SetUser? || a.Logout? ==> AuthConsistent(r)
    ensures AuthConsistent(s) ==> AuthConsistent(r)
    ensures !a.SetSearchTerm? ==> r.searchTerm == s.searchTerm
    ensures !a.SetAuthInitialized? ==> r.isAuthInitialized == s.isAuthInitialized
    ensures a.SetSearchTerm? || a.SetAuthInitialized? ==>
      r.user == s.user && r.isAuthenticated == s.isAuthenticated
  {
    match a
    case SetSearchTerm(term) => s.(searchTerm := term)
    case SetUser(u) => s.(user := u, isAuthenticated := u.Some?)
    case Logout => s.(user := None, isAuthenticated := false)
    case SetAuthInitialized(v) => s.(isAuthInitialized := v)
  }

  /** The state after a sequence of actions, applied in order. */
  function Run(s: StoreState, actions: seq<Action>): StoreState
    decreases |actions|
  {
    if actions == [] then s else Run(Step(s, actions[0]), actions[1..])
  }

  /** Every state the store can reach from its initial state keeps the invariant. */
  lemma {:induction false} RunKeepsAuthConsistent(s: StoreState, actions: seq<Action>)
    requires AuthConsistent(s)
    ensures AuthConsistent(Run(s, actions))
    decreases |actions|
  {
    if actions != [] {
      RunKeepsAuthConsistent(Step(s, actions[0]), actions[1..]);
    }
  }

  lemma ReachableAuthConsistent(actions: seq<Action>)
    ensures AuthConsistent(Run(InitialState, actions))
  {
    RunKeepsAuthConsistent(InitialState, actions);
  }

  /** Running one or two actions is stepping through them. */
  lemma RunShort(s: StoreState, a: Action, b: Action)
    ensures Run(s, [a]) == Step(s, a)
    ensures Run(s, [a, b]) == Step(Step(s, a), b)
  {
    assert [a][1..] == [] && [a, b][1..] == [b];
    assert Run(Step(s, a), [b]) == Run(Step(Step(s, a), b), []);
  }

  /** After `setUser(u)` the store holds `u` and is authenticated exactly when `u` is present. */
  lemma SetUserAuthenticates(s: StoreState, u: Option<User>)
    ensures var r := Step(s, SetUser(u));
      r.user == u && (r.isAuthenticated <==> u.Some?)
      && r.searchTerm == s.searchTerm && r.isAuthInitialized == s.isAuthInitialized
  {
  }

  /**
   * `logout` forgets the user and the authentication, keeps the search term
   * and the initialisation flag, and a second logout changes nothing.
   */
  lemma LogoutIdempotent(s: StoreState)
    ensures var r := Step(s, Logout);
      && r.user == None && !r.isAuthenticated
      && r.searchTerm == s.searchTerm && r.isAuthInitialized == s.isAuthInitialized
      && Step(r, Logout) == r
  {
  }

  /** `setSearchTerm` changes the search term and nothing else. */
  lemma SetSearchTermOnlyTerm(s: StoreState, term: string)
    ensures Step(s, SetSearchTerm(term)).searchTerm == term
    ensures Step(s, SetSearchTerm(term)).(searchTerm := s.searchTerm) == s
  {
  }

  /** `setAuthInitialized` changes the initialisation flag and nothing else. */
  lemma SetAuthInitializedOnlyFlag(s: StoreState, v: bool)
    ensures Step(s, SetAuthInitialized(v)).isAuthInitialized == v
    ensures Step(s, SetAuthInitialized(v)).(isAuthInitialized := s.isAuthInitialized) == s
  {
  }

  /** The store object, whose actions overwrite its fields in place. */
  class TaskStore {
    var searchTerm: string
    var user: Option<User>
    var isAuthenticated: bool
    var isAuthInitialized: bool

    function State(): StoreState
      reads this
    {
      StoreState(searchTerm, user, isAuthenticated, isAuthInitialized)
    }

    predicate Valid()
      reads this
    {
      AuthConsistent(State())
    }

    constructor ()
      ensures State() == InitialState && Valid()
    {
      searchTerm := "";
      user := None;
      isAuthenticated := false;
      isAuthInitialized := false;
    }

    method SetSearchTerm(term: string)
      modifies this
      ensures State() == Step(old(State()), Action.SetSearchTerm(term))
      ensures old(Valid()) ==> Valid()
    {
      searchTerm := term;
    }

    method SetUser(u: Option<User>)
      modifies this
      ensures State() == Step(old(State()), Action.SetUser(u))
      ensures Valid()
    {
      user := u;
      isAuthenticated := u.Some?;
    }

    method Logout()
      modifies this
      ensures State() == Step(old(State()), Action.Logout)
      ensures Valid()
    {
      user := None;
      isAuthenticated := false;
    }

    method SetAuthInitialized(value: bool)
      modifies this
      ensures State() == Step(old(State()), Action.SetAuthInitialized(value))
      ensures old(Valid()) ==> Valid()
    {
      isAuthInitialized := value;
    }
  }
}
