/** The route-sharing screen: sharing a route with an e-mail address and
    syncing a route with a simulated traveller. */
module RouteSharing {
  import opened Wrappers
  import Text

  datatype Route = Route(
    id: string,
    name: string,
    description: string,
    duration: string,
    shared: bool,
    syncedWith: seq<string>)

  /** The screen's state slots. */
  datatype RouteState = RouteState(
    routes: seq<Route>, showShareDialog: bool, selectedRoute: Option<Route>, shareEmail: string)

  const Initial: RouteState := RouteState(
    [Route("1", "Southeast Asia Trail", "Bangkok → Chiang Mai → Hanoi → Ho Chi Minh", "3 weeks", true, ["Alex", "Sarah"]),
     Route("2", "European Backpack", "Amsterdam → Berlin → Prague → Vienna", "2 weeks", false, [])],
    false, None, "")

  /** The `map` both handlers apply: each route with id `routeId` gets `name`
      appended to `syncedWith`, and is marked shared when `markShared`; every
      other route, the order and the length are kept. */
  function AppendPartner(routes: seq<Route>, routeId: string, name: string, markShared: bool): (r: seq<Route>)
    ensures |r| == |routes|
    ensures forall k :: 0 <= k < |routes| && routes[k].id != routeId ==> r[k] == routes[k]
    ensures forall k :: 0 <= k < |routes| && routes[k].id == routeId ==>
      && r[k].syncedWith == routes[k].syncedWith + [name]
      && r[k].shared == (routes[k].shared || markShared)
      && r[k].(syncedWith := routes[k].syncedWith, shared := routes[k].shared) == routes[k]
    decreases |routes|
  {
    if routes == [] then []
    else
      var route := routes[0];
      var updated := if route.id == routeId
        then route.(shared := route.shared || markShared, syncedWith := route.syncedWith + [name])
        else route;
      [updated] + AppendPartner(routes[1..], routeId, name, markShared)
  }

  /** `shareRoute`: remember the route and open the dialog. */
  function ShareRoute(s: RouteState, route: Route): (r: RouteState)
    ensures r.selectedRoute == Some(route) && r.showShareDialog
    ensures r.routes == s.routes && r.shareEmail == s.shareEmail
  {
    s.(selectedRoute := Some(route), showShareDialog := true)
  }

  /** `handleShare`: nothing without a selected route and a non-empty address;
      otherwise the selected route becomes shared with the address appended,
      the dialog closes and the address is cleared. */
  function HandleShare(s: RouteState): (r: RouteState)
    ensures s.selectedRoute.None? || s.shareEmail == "" ==> r == s
    ensures s.selectedRoute.Some? && s.shareEmail != "" ==>
      && r.routes == AppendPartner(s.routes, s.selectedRoute.value.id, s.shareEmail, true)
      && !r.showShareDialog && r.shareEmail == "" && r.selectedRoute == s.selectedRoute
  {
    if s.selectedRoute.Some? && s.shareEmail != "" then
      s.(routes := AppendPartner(s.routes, s.selectedRoute.value.id, s.shareEmail, true),
         showShareDialog := false, shareEmail := "")
    else s
  }

  /** `syncRoute(routeId)` with `pick`, the `Math.floor(Math.random() * 1000)`
      drawn: the route gets one more partner 'TravelBuddy_<pick>'; `shared`
      is left as it was. */
  function SyncRoute(s: RouteState, routeId: string, pick: nat): (r: RouteState)
    requires pick < 1000
    ensures r.routes == AppendPartner(s.routes, routeId, "TravelBuddy_" + Text.NatToString(pick), false)
    ensures r.(routes := s.routes) == s
  {
    s.(routes := AppendPartner(s.routes, routeId, "TravelBuddy_" + Text.NatToString(pick), false))
  }

  /** The share button's caption. */
  function ShareCaption(route: Route): (caption: string)
    ensures caption == "Share More" <==> route.shared
  {
    if route.shared then "Share More" else "Share"
  }

  /** After sharing, the shared route offers 'Share More' and lists the new
      address last; syncing never changes a caption. */
  lemma ShareThenCaption(s: RouteState, k: int)
    requires s.selectedRoute.Some? && s.shareEmail != ""
    requires 0 <= k < |s.routes| && s.routes[k].id == s.selectedRoute.value.id
    ensures ShareCaption(HandleShare(s).routes[k]) == "Share More"
    ensures var partners := HandleShare(s).routes[k].syncedWith;
      |partners| == |s.routes[k].syncedWith| + 1 && partners[|partners| - 1] == s.shareEmail
  {
  }

  lemma SyncKeepsCaptions(s: RouteState, routeId: string, pick: nat, k: int)
    requires pick < 1000 && 0 <= k < |s.routes|
    ensures ShareCaption(SyncRoute(s, routeId, pick).routes[k]) == ShareCaption(s.routes[k])
  {
  }

  /** Routes other than the target keep their partners whatever is shared or synced. */
  lemma OtherRoutesUntouched(s: RouteState, routeId: string, pick: nat, k: int)
    requires pick < 1000 && 0 <= k < |s.routes| && s.routes[k].id != routeId
    requires s.selectedRoute.Some? ==> s.selectedRoute.value.id == routeId
    ensures SyncRoute(s, routeId, pick).routes[k] == s.routes[k]
    ensures HandleShare(s).routes[k] == s.routes[k]
  {
  }
}
