/** The community recommendations screen: adding a recommendation, the type
    filter, the type icons and colours, and the star row. */
module Community {
  import opened Wrappers
  import Lists
  import Text

  /** A recommendation; `kind` is the source's `type` field. */
  datatype Recommendation = Recommendation(
    id: string,
    kind: string,
    name: string,
    location: string,
    description: string,
    rating: real,
    reviewCount: int,
    price: string,
    tags: seq<string>,
    author: string,
    date: string)

  /** The add form; `tags` is the comma-separated text typed. */
  datatype NewRecommendation = NewRecommendation(
    kind: string, name: string, location: string, description: string, price: string, tags: string)

  /** The screen's state slots. */
  datatype CommunityState = CommunityState(
    recommendations: seq<Recommendation>,
    showRecommendationDialog: bool,
    newRecommendation: NewRecommendation,
    filterType: Option<string>)

  const EmptyForm: NewRecommendation := NewRecommendation("restaurant", "", "", "", "", "")

  /** `tags.split(',').map(tag => tag.trim())`. */
  function ParseTags(text: string): seq<string> {
    Text.TrimEach(Text.Split(text, ','))
  }

  /** One tag per comma-separated piece, each trimmed and free of commas; the
      empty text gives a single empty tag. */
  lemma ParseTagsShape(text: string)
    ensures |ParseTags(text)| == Text.CountChar(text, ',') + 1
    ensures forall k :: 0 <= k < |ParseTags(text)| ==>
              ',' !in ParseTags(text)[k] && Text.Trim(ParseTags(text)[k]) == ParseTags(text)[k]
    ensures ParseTags("") == [""]
  {
    var parts := Text.Split(text, ',');
    Text.SplitCount(text, ',');
    Text.SplitPiecesHaveNoSeparator(text, ',');
    forall k | 0 <= k < |parts|
      ensures ',' !in Text.Trim(parts[k]) && Text.Trim(Text.Trim(parts[k])) == Text.Trim(parts[k])
    {
      Text.TrimIdempotent(parts[k]);
      Text.TrimKeepsAbsent(parts[k], ',');
    }
  }

  /** `addRecommendation` with a fresh id and today's date: nothing unless both
      name and description are filled in; otherwise the new recommendation,
      unrated and by 'You', goes to the front, and the form is reset and the
      dialog closed. */
  function AddRecommendation(s: CommunityState, freshId: string, today: string): (r: CommunityState)
    ensures s.newRecommendation.name == "" || s.newRecommendation.description == "" ==> r == s
    ensures s.newRecommendation.name != "" && s.newRecommendation.description != "" ==>
      var f := s.newRecommendation;
      && |r.recommendations| == |s.recommendations| + 1
      && r.recommendations[1..] == s.recommendations
      && r.recommendations[0] == Recommendation(freshId, f.kind, f.name, f.location, f.description,
                                                0.0, 0, f.price, ParseTags(f.tags), "You", today)
      && r.newRecommendation == EmptyForm && !r.showRecommendationDialog && r.filterType == s.filterType
  {
    var f := s.newRecommendation;
    if f.name != "" && f.description != "" then
      var recommendation := Recommendation(freshId, f.kind, f.name, f.location, f.description,
                                           0.0, 0, f.price, ParseTags(f.tags), "You", today);
      s.(recommendations := [recommendation] + s.recommendations,
         newRecommendation := EmptyForm,
         showRecommendationDialog := false)
    else s
  }

  /** The filtered list: all for no filter (null or the falsy empty string),
      otherwise the recommendations of that type, in order. */
  function Filtered(recommendations: seq<Recommendation>, filterType: Option<string>): (r: seq<Recommendation>)
    ensures filterType.None? || filterType.value == "" ==> r == recommendations
    ensures filterType.Some? && filterType.value != "" ==>
      && (forall k :: 0 <= k < |r| ==> r[k] in recommendations && r[k].kind == filterType.value)
      && (forall k :: 0 <= k < |recommendations| && recommendations[k].kind == filterType.value ==>
            recommendations[k] in r)
  {
    if filterType.Some? && filterType.value != "" then
      Lists.Filter(recommendations, OfKind(filterType.value))
    else recommendations
  }

  function OfKind(kind: string): Recommendation -> bool {
    (x: Recommendation) => x.kind == kind
  }

  /** The filter keeps the list's order and multiplicity: it distributes over
      concatenation and keeps a single recommendation exactly when it passes. */
  lemma FilteredKeepsOrder(a: seq<Recommendation>, b: seq<Recommendation>, x: Recommendation, filterType: Option<string>)
    ensures Filtered(a + b, filterType) == Filtered(a, filterType) + Filtered(b, filterType)
    ensures Filtered([x], filterType)
         == if filterType.None? || filterType.value == "" || x.kind == filterType.value then [x] else []
  {
    if filterType.Some? && filterType.value != "" {
      Lists.FilterSplits(a, b, x, OfKind(filterType.value));
    }
  }

  /** A new recommendation shows at the top of the list under its own type's filter. */
  lemma AddedShowsFirst(s: CommunityState, freshId: string, today: string)
    requires s.newRecommendation.name != "" && s.newRecommendation.description != ""
    ensures var r := AddRecommendation(s, freshId, today);
      Filtered(r.recommendations, Some(s.newRecommendation.kind))
        == [r.recommendations[0]] + Filtered(s.recommendations, Some(s.newRecommendation.kind))
  {
    var r := AddRecommendation(s, freshId, today);
    assert r.recommendations == [r.recommendations[0]] + s.recommendations;
    PrependedMatches(r.recommendations[0], s.recommendations);
  }

  /** Filtering by the first element's own type keeps it in front. */
  lemma PrependedMatches(x: Recommendation, rest: seq<Recommendation>)
    ensures Filtered([x] + rest, Some(x.kind)) == [x] + Filtered(rest, Some(x.kind))
  {
    if x.kind != "" {
      Lists.FilterConcat([x], rest, OfKind(x.kind));
      Lists.FilterKeepsOrMisses(x, OfKind(x.kind));
    }
  }

  /** `getTypeIcon` and `getTypeColor`, with their defaults. */
  function TypeIcon(kind: string): (icon: string)
    ensures kind !in {"hostel", "restaurant", "activity"} <==> icon == "map-marker"
  {
    match kind
    case "hostel" => "bed"
    case "restaurant" => "food"
    case "activity" => "ticket"
    case _ => "map-marker"
  }

  function TypeColor(kind: string): (color: string)
    ensures kind !in {"hostel", "restaurant", "activity"} <==> color == "#2196F3"
  {
    match kind
    case "hostel" => "#9C27B0"
    case "restaurant" => "#FF5722"
    case "activity" => "#4CAF50"
    case _ => "#2196F3"
  }

  datatype Star = Full | Half | Outline

  /** `renderStars`: five icons; icon `i` is full below the whole part of the
      rating, half below the rating itself, and outlined otherwise. */
  function RenderStars(rating: real): (stars: seq<Star>)
    ensures |stars| == 5
    ensures forall i :: 0 <= i < 5 ==> (stars[i] == Full <==> (i as real) < (rating.Floor as real))
    ensures forall i :: 0 <= i < 5 ==> (stars[i] == Half <==> rating.Floor <= i && (i as real) < rating)
  {
    seq(5, i requires 0 <= i < 5 => StarAt(rating, i))
  }

  function StarAt(rating: real, i: int): Star {
    if i < rating.Floor then Full else if (i as real) < rating then Half else Outline
  }

  /** At most one half star, and it follows the full ones: the row reads full
      stars, then possibly one half star, then outlines. */
  lemma StarsInOrder(rating: real)
    ensures forall i, j :: 0 <= i < j < 5 && RenderStars(rating)[i] == Half ==> RenderStars(rating)[j] == Outline
    ensures forall i, j :: 0 <= i < j < 5 && RenderStars(rating)[j] == Full ==> RenderStars(rating)[i] == Full
  {
  }

  /** A whole rating gives no half star; 4.6 gives four full stars and a half. */
  lemma StarExamples()
    ensures RenderStars(4.6) == [Full, Full, Full, Full, Half]
    ensures RenderStars(3.0) == [Full, Full, Full, Outline, Outline]
    ensures RenderStars(0.0) == [Outline, Outline, Outline, Outline, Outline]
  {
    assert (4.6).Floor == 4;
    assert (3.0).Floor == 3;
  }
}
