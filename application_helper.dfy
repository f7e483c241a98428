/** The view helpers shared by every page: the navigation item that marks
    the current page, and the column header link that sorts a listing. The
    route recogniser, `titleize`, and the controller's current sort column
    and direction are inputs. */
module ApplicationHelper {
  import opened Support

  /** The controller and action a path is routed to, each possibly nil. */
  datatype Route = Route(controller: Option<string>, action: Option<string>)

  /** An `li` holding a link to `link`, with the class "active" or none. */
  datatype NavItem = NavItem(active: bool, text: string, link: string)

  /** `nav_link`: `recognize` is the application's route recogniser and
      `current` the controller and action handling this request. */
  function NavLink(text: string, link: string, recognize: string -> Route, current: Route): (item: NavItem)
    ensures item.active <==> recognize(link).controller == current.controller && recognize(link).action == current.action
    ensures item.text == text && item.link == link
  {
    var recognized := recognize(link);
    var controllerMatches := recognized.controller == current.controller;
    var actionMatches := recognized.action == current.action;
    if controllerMatches && actionMatches then NavItem(true, text, link) else NavItem(false, text, link)
  }

  /** A navigation item for the page being shown is marked, and an item for a
      path handled by another controller is not. */
  lemma NavLinkMarksCurrentPage(text: string, link: string, recognize: string -> Route, current: Route)
    ensures recognize(link) == current ==> NavLink(text, link, recognize, current).active
    ensures recognize(link).controller != current.controller ==> !NavLink(text, link, recognize, current).active
  {
  }

  /** A sorting link: its text, the query parameters it links to, its class. */
  datatype SortLink = SortLink(title: string, params: map<string, string>, cssClass: string)

  /** The direction a column header offers: descending only for the column
      already sorted ascending. */
  function NextDirection(column: string, sortColumn: string, sortDirection: string): (d: string)
    ensures d == "desc" <==> column == sortColumn && sortDirection == "asc"
    ensures d == "asc" <==> !(column == sortColumn && sortDirection == "asc")
  {
    if column == sortColumn && sortDirection == "asc" then "desc" else "asc"
  }

  /** `sortable`: `title` defaults to the titleized column name; `params`
      are the request's, `sortColumn` and `sortDirection` the listing's. */
  function Sortable(column: string, title: Option<string>, titleize: string -> string,
                    sortColumn: string, sortDirection: string, params: map<string, string>): (link: SortLink)
    ensures link.title == if title.Some? then title.value else titleize(column)
    ensures column == sortColumn ==> link.cssClass == "current " + sortDirection
    ensures column != sortColumn ==> link.cssClass == "sortable"
    ensures link.params.Keys == params.Keys + {"sort", "direction"}
    ensures link.params["sort"] == column
    ensures link.params["direction"] == "desc" <==> column == sortColumn && sortDirection == "asc"
    ensures link.params["direction"] == "asc" <==> !(column == sortColumn && sortDirection == "asc")
    ensures forall k :: k in params && k != "sort" && k != "direction" ==> link.params[k] == params[k]
  {
    var shown := if title.Some? then title.value else titleize(column);
    var cssClass := if column == sortColumn then "current " + sortDirection else "sortable";
    var direction := NextDirection(column, sortColumn, sortDirection);
    SortLink(shown, params["sort" := column]["direction" := direction], cssClass)
  }

  /** Following a header's link twice on the same column comes back to the
      first order: ascending goes to descending and back. A column other
      than the sorted one always offers ascending, and the page it links to
      shows that column as current. */
  lemma SortableToggles(column: string, titleize: string -> string, direction: string, params: map<string, string>)
    requires direction == "asc" || direction == "desc"
    ensures var first := Sortable(column, None, titleize, column, direction, params).params;
      var second := Sortable(column, None, titleize, first["sort"], first["direction"], first).params;
      && first["direction"] != direction
      && second["direction"] == direction
      && second["sort"] == column
    ensures forall other :: other != column ==>
      var link := Sortable(other, None, titleize, column, direction, params);
      && link.params["direction"] == "asc"
      && Sortable(other, None, titleize, link.params["sort"], link.params["direction"], link.params).cssClass == "current asc"
  {
  }
}
