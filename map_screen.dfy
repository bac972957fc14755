/** The map screen: adding a marker at the selected coordinate, and the
    marker colour tiers and type icons. */
module MapScreen {
  import opened Wrappers
  import Text

  datatype Coordinate = Coordinate(latitude: real, longitude: real)

  /** A marker; `kind` is the source's `type` field. */
  datatype Marker = Marker(id: int, coordinate: Coordinate, title: string, description: string, kind: string, rating: real)

  /** The add form. */
  datatype NewMarker = NewMarker(title: string, description: string, kind: string)

  /** The screen's state slots (location and routes are left out). */
  datatype MapState = MapState(
    markers: seq<Marker>, showAddMarker: bool, newMarker: NewMarker, selectedCoordinate: Option<Coordinate>)

  const EmptyForm: NewMarker := NewMarker("", "", "destination")

  const InitialMarkers: seq<Marker> := [
    Marker(1, Coordinate(48.8566, 2.3522), "Eiffel Tower", "Highly rated landmark - 4.8★", "destination", 4.8),
    Marker(2, Coordinate(48.8606, 2.3376), "Louvre Museum", "Must-visit museum - 4.6★", "destination", 4.6),
    Marker(3, Coordinate(48.8529, 2.3499), "Notre-Dame Cathedral", "Historic cathedral - 4.5★", "destination", 4.5)
  ]

  const Initial: MapState := MapState(InitialMarkers, false, EmptyForm, None)

  /** `handleMapPress`: the pressed point becomes the selection and the modal opens. */
  function MapPress(s: MapState, at: Coordinate): (r: MapState)
    ensures r.selectedCoordinate == Some(at) && r.showAddMarker
    ensures r.markers == s.markers && r.newMarker == s.newMarker
  {
    s.(selectedCoordinate := Some(at), showAddMarker := true)
  }

  /** `addNewMarker`: a blank title (after trimming) or no selected point
      changes nothing; otherwise a marker with id one past the list length, the
      selected point, the form's fields and rating 0 is appended, and the form,
      the selection and the modal are reset. */
  function AddNewMarker(s: MapState): (r: MapState)
    ensures Text.IsBlank(s.newMarker.title) || s.selectedCoordinate.None? ==> r == s
    ensures !Text.IsBlank(s.newMarker.title) && s.selectedCoordinate.Some? ==>
      var f := s.newMarker;
      var n := |s.markers|;
      && |r.markers| == n + 1
      && r.markers[..n] == s.markers
      && r.markers[n] == Marker(n + 1, s.selectedCoordinate.value, f.title, f.description, f.kind, 0.0)
      && r.newMarker == EmptyForm && !r.showAddMarker && r.selectedCoordinate.None?
  {
    var f := s.newMarker;
    if Text.IsBlank(f.title) || s.selectedCoordinate.None? then s
    else
      var marker := Marker(|s.markers| + 1, s.selectedCoordinate.value, f.title, f.description, f.kind, 0.0);
      MapState(s.markers + [marker], false, EmptyForm, None)
  }

  /** The markers are numbered 1, 2, ... in list order. */
  predicate Numbered(markers: seq<Marker>) {
    forall k :: 0 <= k < |markers| ==> markers[k].id == k + 1
  }

  /** The initial markers are numbered and adding keeps them so; ids therefore
      stay distinct. */
  lemma AddKeepsNumbered(s: MapState)
    requires Numbered(s.markers)
    ensures Numbered(AddNewMarker(s).markers)
    ensures Numbered(Initial.markers)
  {
  }

  /** `getMarkerColor`: four tiers on the rating alone; the type is ignored. */
  function MarkerColor(kind: string, rating: real): (color: string)
    ensures rating >= 4.5 <==> color == "#4CAF50"
    ensures 4.0 <= rating < 4.5 <==> color == "#FF9800"
    ensures 3.0 <= rating < 4.0 <==> color == "#FFC107"
    ensures rating < 3.0 <==> color == "#F44336"
  {
    if rating >= 4.5 then "#4CAF50"
    else if rating >= 4.0 then "#FF9800"
    else if rating >= 3.0 then "#FFC107"
    else "#F44336"
  }

  /** The tier a colour stands for: 0 for red up to 3 for green. */
  function Tier(color: string): int {
    match color
    case "#4CAF50" => 3
    case "#FF9800" => 2
    case "#FFC107" => 1
    case _ => 0
  }

  /** A higher rating never gives a lower tier, and the type never matters. */
  lemma MarkerColorMonotone(kind1: string, kind2: string, r1: real, r2: real)
    requires r1 <= r2
    ensures Tier(MarkerColor(kind1, r1)) <= Tier(MarkerColor(kind2, r2))
    ensures MarkerColor(kind1, r1) == MarkerColor(kind2, r1)
  {
  }

  /** A new marker, rated 0, is always red. */
  lemma NewMarkerIsRed(s: MapState)
    requires !Text.IsBlank(s.newMarker.title) && s.selectedCoordinate.Some?
    ensures var r := AddNewMarker(s);
      |r.markers| > |s.markers| && MarkerColor(r.markers[|s.markers|].kind, r.markers[|s.markers|].rating) == "#F44336"
  {
  }

  /** `getMarkerIcon`, with its default. */
  function MarkerIcon(kind: string): (icon: string)
    ensures kind !in {"accommodation", "food", "activity", "transport"} <==> icon == "location"
  {
    match kind
    case "accommodation" => "bed"
    case "food" => "restaurant"
    case "activity" => "bicycle"
    case "transport" => "car"
    case _ => "location"
  }
}
