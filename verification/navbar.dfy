/** The navigation bar: a search box mirrored into the shared search query, a
    mobile menu that opens and closes, and the session controls. Every handler
    is a step from one state to the next that may also ask for a navigation and
    raise a notification; the caller performs both. */
module Navbar {
  import opened Wrappers
  import opened Text

  datatype User = User(name: string, email: string)

  /** The bar's local state together with the shared values it reads and writes. */
  datatype NavState = NavState(
    localQuery: string,
    sharedQuery: string,
    open: bool,
    user: Option<User>,
    pathname: string,
    showUserLogin: bool)

  /** What the logout request came back with: a response whose `success` is true,
      one whose `success` is false, or a thrown error. */
  datatype LogoutOutcome = Success(message: string) | Failure(message: string) | Error(message: string)

  datatype Notice = SuccessNotice(message: string) | ErrorNotice(message: string)

  /** A handler's effect: the next state, the path it asks to navigate to, and the notification it raises. */
  datatype Reaction = Reaction(state: NavState, request: Option<string>, notice: Option<Notice>)

  /** The two links drawn both in the desktop bar and in the mobile menu. */
  datatype MenuLink = HomeLink | ProductsLink

  datatype NavEvent =
    | SearchInput(value: string)
    | SearchSubmit
    | RouteChanged(pathname: string)
    | MenuToggle
    | LogoClick
    | DesktopLinkClick(link: MenuLink)
    | MobileLinkClick(link: MenuLink)
    | CartClick
    | OrdersClick(fromMobileMenu: bool)
    | LoginClick
    | LogoutClick(fromMobileMenu: bool)
    | LogoutSettled(outcome: LogoutOutcome)

  const HomePath: string := "/"
  const ProductsPath: string := "/products"
  const CartPath: string := "/cart"
  const OrdersPath: string := "/my-orders"

  function LinkPath(link: MenuLink): string {
    match link
    case HomeLink => HomePath
    case ProductsLink => ProductsPath
  }

  /** The local search box and the shared search query hold the same text. */
  predicate QueriesInSync(s: NavState) {
    s.localQuery == s.sharedQuery
  }

  function Quiet(s: NavState): Reaction {
    Reaction(s, None, None)
  }

  /** Typing: both queries take the typed value, and a value with some
      non-whitespace character typed away from the product listing asks for it. */
  function HandleSearchInput(s: NavState, v: string): (r: Reaction)
    ensures r.state.localQuery == v && r.state.sharedQuery == v
    ensures r.state.(localQuery := s.localQuery, sharedQuery := s.sharedQuery) == s
    ensures r.request.Some? <==> s.pathname != ProductsPath && exists i :: 0 <= i < |v| && !IsWhitespace(v[i])
    ensures r.request.Some? ==> r.request.value == ProductsPath
    ensures r.notice.None?
  {
    HasTextIffNonSpace(v);
    var t := s.(localQuery := v, sharedQuery := v);
    if s.pathname != ProductsPath && HasText(v) then Reaction(t, Some(ProductsPath), None) else Quiet(t)
  }

  /** Submitting the search form: with some non-whitespace text it asks for the
      product listing and closes the menu; otherwise it does nothing. */
  function HandleSearch(s: NavState): (r: Reaction)
    ensures (exists i :: 0 <= i < |s.localQuery| && !IsWhitespace(s.localQuery[i])) ==>
              r.state == s.(open := false) && r.request == Some(ProductsPath)
    ensures (forall i :: 0 <= i < |s.localQuery| ==> IsWhitespace(s.localQuery[i])) ==>
              r.state == s && r.request.None?
    ensures r.notice.None?
  {
    HasTextIffNonSpace(s.localQuery);
    if HasText(s.localQuery) then Reaction(s.(open := false), Some(ProductsPath), None) else Quiet(s)
  }

  /** The body of the effect on the pathname: away from the product listing both queries are emptied. */
  function ClearSearch(s: NavState): (r: NavState)
    ensures s.pathname != ProductsPath ==> r.localQuery == "" && r.sharedQuery == ""
    ensures s.pathname == ProductsPath ==> r == s
    ensures r.(localQuery := s.localQuery, sharedQuery := s.sharedQuery) == s
  {
    if s.pathname != ProductsPath then s.(localQuery := "", sharedQuery := "") else s
  }

  /** A new location: the effect runs only when the pathname actually changes. */
  function HandleRouteChange(s: NavState, p: string): (r: Reaction)
    ensures r.state.pathname == p
    ensures p != s.pathname && p != ProductsPath ==> r.state.localQuery == "" && r.state.sharedQuery == ""
    ensures p == s.pathname || p == ProductsPath ==>
              r.state.localQuery == s.localQuery && r.state.sharedQuery == s.sharedQuery
    ensures r.state.(localQuery := s.localQuery, sharedQuery := s.sharedQuery, pathname := s.pathname) == s
    ensures r.request.None? && r.notice.None?
  {
    if p == s.pathname then Quiet(s) else Quiet(ClearSearch(s.(pathname := p)))
  }

  /** The state when the bar mounts, after its pathname effect has run once. */
  function Mount(sharedQuery: string, user: Option<User>, pathname: string, showUserLogin: bool): (s: NavState)
    ensures !s.open && s.localQuery == ""
    ensures s.user == user && s.pathname == pathname && s.showUserLogin == showUserLogin
    ensures pathname != ProductsPath ==> QueriesInSync(s) && s.sharedQuery == ""
    ensures pathname == ProductsPath ==> s.sharedQuery == sharedQuery
  {
    ClearSearch(NavState("", sharedQuery, false, user, pathname, showUserLogin))
  }

  /** How a settled logout request changes the session. */
  function HandleLogout(s: NavState, outcome: LogoutOutcome): (r: Reaction)
    ensures outcome.Success? ==> r.state == s.(user := None) && r.request == Some(HomePath)
    ensures outcome.Success? ==> r.notice == Some(SuccessNotice(outcome.message))
    ensures !outcome.Success? ==> r.state == s && r.request.None?
    ensures !outcome.Success? ==> r.notice == Some(ErrorNotice(outcome.message))
  {
    match outcome
    case Success(m) => Reaction(s.(user := None), Some(HomePath), Some(SuccessNotice(m)))
    case Failure(m) => Reaction(s, None, Some(ErrorNotice(m)))
    case Error(m) => Reaction(s, None, Some(ErrorNotice(m)))
  }

  /** One event applied to the bar. */
  function Step(s: NavState, e: NavEvent): (r: Reaction)
    ensures e.MenuToggle? ==> r.state == s.(open := !s.open) && r.request.None?
    ensures e.LoginClick? ==> r.state == s.(open := false, showUserLogin := true) && r.request.None?
    ensures e.LogoClick? ==> r.state == s.(open := false) && r.request == Some(HomePath)
    ensures e.MobileLinkClick? ==> r.state == s.(open := false) && r.request == Some(LinkPath(e.link))
    ensures e.DesktopLinkClick? ==> r.state == s && r.request == Some(LinkPath(e.link))
    ensures e.CartClick? ==> r.state == s && r.request == Some(CartPath)
    ensures e.OrdersClick? ==> r.state == s.(open := s.open && !e.fromMobileMenu) && r.request == Some(OrdersPath)
    ensures e.LogoutClick? ==> r.state == s.(open := s.open && !e.fromMobileMenu) && r.request.None?
    ensures !e.LogoutSettled? ==> r.notice.None?
  {
    match e
    case SearchInput(v) => HandleSearchInput(s, v)
    case SearchSubmit => HandleSearch(s)
    case RouteChanged(p) => HandleRouteChange(s, p)
    case MenuToggle => Quiet(s.(open := !s.open))
    case LogoClick => Reaction(s.(open := false), Some(HomePath), None)
    case DesktopLinkClick(link) => Reaction(s, Some(LinkPath(link)), None)
    case MobileLinkClick(link) => Reaction(s.(open := false), Some(LinkPath(link)), None)
    case CartClick => Reaction(s, Some(CartPath), None)
    case OrdersClick(mobile) =>
      if mobile then Reaction(s.(open := false), Some(OrdersPath), None) else Reaction(s, Some(OrdersPath), None)
    case LoginClick => Quiet(s.(open := false, showUserLogin := true))
    case LogoutClick(mobile) => if mobile then Quiet(s.(open := false)) else Quiet(s)
    case LogoutSettled(outcome) => HandleLogout(s, outcome)
  }

  /** What a sequence of events leaves behind: the final state and every
      navigation asked for, in order. */
  datatype Trace = Trace(state: NavState, requests: seq<string>)

  function Run(s: NavState, es: seq<NavEvent>): Trace
    decreases |es|
  {
    if |es| == 0 then Trace(s, [])
    else
      var r := Step(s, es[0]);
      var rest := Run(r.state, es[1..]);
      Trace(rest.state, (if r.request.Some? then [r.request.value] else []) + rest.requests)
  }

  /** Clearing the search twice is clearing it once. */
  lemma ClearSearchIdempotent(s: NavState)
    ensures ClearSearch(ClearSearch(s)) == ClearSearch(s)
  {
  }

  /** Toggling the menu twice restores it. */
  lemma ToggleTwice(s: NavState)
    ensures Step(Step(s, MenuToggle).state, MenuToggle).state == s
  {
  }

  /** Typing real text away from the product listing asks for the listing, and
      arriving there keeps what was typed in both queries. */
  lemma TypeThenArrive(s: NavState, v: string)
    requires s.pathname != ProductsPath
    requires exists i :: 0 <= i < |v| && !IsWhitespace(v[i])
    ensures var typed := HandleSearchInput(s, v);
            && typed.request == Some(ProductsPath)
            && var arrived := HandleRouteChange(typed.state, typed.request.value).state;
               arrived.localQuery == v && arrived.sharedQuery == v && arrived.pathname == ProductsPath
  {
  }

  /** Every event keeps the local and the shared query equal once they are. */
  lemma StepKeepsQueriesInSync(s: NavState, e: NavEvent)
    requires QueriesInSync(s)
    ensures QueriesInSync(Step(s, e).state)
  {
  }

  lemma {:induction false} RunKeepsQueriesInSync(s: NavState, es: seq<NavEvent>)
    requires QueriesInSync(s)
    ensures QueriesInSync(Run(s, es).state)
    decreases |es|
  {
    if |es| > 0 {
      StepKeepsQueriesInSync(s, es[0]);
      RunKeepsQueriesInSync(Step(s, es[0]).state, es[1..]);
    }
  }

  /** The bar never signs a user in, and it signs one out only on a successful
      logout: after any run the user is either unchanged or gone, and gone only
      when a successful logout outcome was among the events. */
  lemma {:induction false} RunOnlySignsOut(s: NavState, es: seq<NavEvent>)
    ensures Run(s, es).state.user == s.user || Run(s, es).state.user.None?
    ensures Run(s, es).state.user != s.user ==>
              exists i :: 0 <= i < |es| && es[i].LogoutSettled? && es[i].outcome.Success?
    decreases |es|
  {
    if |es| > 0 {
      var t := Step(s, es[0]).state;
      RunOnlySignsOut(t, es[1..]);
      if Run(s, es).state.user != s.user {
        if t.user == s.user {
          var i :| 0 <= i < |es[1..]| && es[1..][i].LogoutSettled? && es[1..][i].outcome.Success?;
          assert es[i + 1] == es[1..][i];
        } else {
          assert es[0].LogoutSettled? && es[0].outcome.Success?;
        }
      }
    }
  }

  /** The paths the bar can ask for. */
  predicate KnownPath(p: string) {
    p == HomePath || p == ProductsPath || p == CartPath || p == OrdersPath
  }

  /** Every navigation the bar asks for, over any run, goes to the home page, the
      product listing, the cart or the order history. */
  lemma {:induction false} RunRequestsKnownPaths(s: NavState, es: seq<NavEvent>)
    ensures forall i :: 0 <= i < |Run(s, es).requests| ==> KnownPath(Run(s, es).requests[i])
    decreases |es|
  {
    if |es| > 0 {
      var r := Step(s, es[0]);
      RunRequestsKnownPaths(r.state, es[1..]);
      assert r.request.Some? ==> KnownPath(r.request.value);
    }
  }

  /** Not every navigation closes the mobile menu: the cart icon asks for the
      cart and leaves an open menu open. */
  lemma CartClickKeepsMenuOpen(s: NavState)
    requires s.open
    ensures Step(s, CartClick).request == Some(CartPath) && Step(s, CartClick).state.open
  {
  }
}
