/**
 * The movie page's `selectShow`: a visitor who is not signed in is sent to the
 * sign-in page; otherwise the chosen show becomes the cart's selected show,
 * with "Screen 1" standing in for a missing screen, and the seat page opens.
 */
module MovieDetails {
  import opened Wrappers
  import opened CartContext

  const DEFAULT_SCREEN: string := "Screen 1"
  const AUTH_ROUTE: string := "/auth"

  /** The fields of a `movies` row the page uses. */
  datatype Movie = Movie(id: string, title: string)

  /** The fields of a `shows` row the page uses; `screen` is nullable. */
  datatype Show = Show(id: string, show_time: string, screen: Option<string>)

  /**
   * `show.screen || "Screen 1"`: JavaScript's `||` replaces every falsy value,
   * so an empty screen name is replaced as well as a missing one.
   */
  function ScreenName(screen: Option<string>): (r: string)
    ensures screen == None ==> r == DEFAULT_SCREEN
    ensures screen == Some("") ==> r == DEFAULT_SCREEN
    ensures screen.Some? && screen.value != "" ==> r == screen.value
    ensures r != ""
  {
    match screen
    case Some(name) => if name == "" then DEFAULT_SCREEN else name
    case None => DEFAULT_SCREEN
  }

  /** The object handed to `setSelectedShow`. */
  function Selection(movie: Movie, show: Show): SelectedShow {
    SelectedShow(show.id, movie.title, show.show_time, ScreenName(show.screen))
  }

  /** The route of the seat page for a show. */
  function SeatsRoute(showId: string): string {
    "/seats/" + showId
  }

  /** `selectShow(show)`, returning the route it navigates to. */
  method SelectShow(user: Option<string>, cart: Cart, movie: Movie, show: Show) returns (route: string)
    modifies cart
    ensures user == None ==> route == AUTH_ROUTE && unchanged(cart)
    ensures user.Some? ==> route == SeatsRoute(show.id)
    ensures user.Some? ==> cart.selectedShow == Some(SelectedShow(show.id, movie.title, show.show_time, ScreenName(show.screen)))
    ensures cart.seats == old(cart.seats) && cart.snacks == old(cart.snacks)
  {
    if user == None {
      return AUTH_ROUTE;
    }
    cart.SetSelectedShow(Some(Selection(movie, show)));
    route := SeatsRoute(show.id);
  }
}
