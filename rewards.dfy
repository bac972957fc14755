/** The rewards screen: redeeming points with a balance check, the type filter,
    the category colours and the signed points history. */
module Rewards {
  import Lists
  import Text

  datatype Reward = Reward(
    id: int,
    title: string,
    description: string,
    points: int,
    category: string,
    kind: string,
    available: bool)

  /** The balance the screen starts with. */
  const InitialPoints: int := 1250

  const Catalogue: seq<Reward> := [
    Reward(1, "20% Off Hotel Booking", "Get 20% discount on your next hotel reservation", 500, "accommodation", "discount", true),
    Reward(2, "Free Travel Insurance", "1-week complimentary travel insurance coverage", 800, "insurance", "service", true),
    Reward(3, "Airport Lounge Access", "One-time access to premium airport lounges", 1200, "travel", "experience", true),
    Reward(4, "Local Experience Gift", "Complimentary local tour or activity", 1000, "activity", "experience", true),
    Reward(5, "Premium App Features", "3 months of premium features unlocked", 600, "app", "upgrade", true),
    Reward(6, "Travel Gear Discount", "30% off backpacks and travel accessories", 400, "gear", "discount", true)
  ]

  /** What the user is told after pressing Redeem. */
  datatype Outcome = Redeemed(title: string) | NeedMore(shortfall: int)

  /** `redeemReward`: the new balance and the message shown. */
  function RedeemReward(userPoints: int, reward: Reward): (r: (int, Outcome))
    ensures userPoints >= reward.points ==> r.0 == userPoints - reward.points && r.1 == Redeemed(reward.title)
    ensures userPoints < reward.points ==> r.0 == userPoints && r.1.NeedMore? && r.1.shortfall > 0
                                           && r.1.shortfall + userPoints == reward.points
  {
    if userPoints >= reward.points then (userPoints - reward.points, Redeemed(reward.title))
    else (userPoints, NeedMore(reward.points - userPoints))
  }

  /** The balance after pressing Redeem on each reward in turn. */
  function RedeemAll(userPoints: int, presses: seq<Reward>): int
    decreases |presses|
  {
    if presses == [] then userPoints else RedeemAll(RedeemReward(userPoints, presses[0]).0, presses[1..])
  }

  /** A non-negative balance never goes negative through redeeming, whatever
      the rewards pressed, and never grows. */
  lemma {:induction false} RedeemAllStaysNonNegative(userPoints: int, presses: seq<Reward>)
    requires userPoints >= 0
    requires forall k :: 0 <= k < |presses| ==> presses[k].points >= 0
    ensures 0 <= RedeemAll(userPoints, presses) <= userPoints
    decreases |presses|
  {
    if presses != [] {
      RedeemAllStaysNonNegative(RedeemReward(userPoints, presses[0]).0, presses[1..]);
    }
  }

  /** The Redeem button: disabled exactly when the balance is short, and
      labelled to match. */
  datatype Button = Button(disabled: bool, caption: string)

  function RedeemButton(userPoints: int, reward: Reward): (b: Button)
    ensures b.disabled <==> userPoints < reward.points
    ensures b.caption == (if b.disabled then "Not enough points" else "Redeem")
  {
    Button(userPoints < reward.points, if userPoints >= reward.points then "Redeem" else "Not enough points")
  }

  /** A press on an enabled button always redeems; on a disabled one it would not. */
  lemma EnabledButtonRedeems(userPoints: int, reward: Reward)
    ensures !RedeemButton(userPoints, reward).disabled <==> RedeemReward(userPoints, reward).1.Redeemed?
  {
  }

  /** `filteredRewards`: every reward for 'all', otherwise those whose `type`
      (not `category`) is the selected value. */
  function FilteredRewards(rewards: seq<Reward>, selected: string): (r: seq<Reward>)
    ensures selected == "all" ==> r == rewards
    ensures selected != "all" ==>
      && (forall k :: 0 <= k < |r| ==> r[k] in rewards && r[k].kind == selected)
      && (forall k :: 0 <= k < |rewards| && rewards[k].kind == selected ==> rewards[k] in r)
  {
    if selected == "all" then rewards else Lists.Filter(rewards, (w: Reward) => w.kind == selected)
  }

  /** The filter keeps the list's order and multiplicity: it distributes over
      concatenation and keeps a single reward exactly when it passes. */
  lemma FilteredRewardsKeepsOrder(a: seq<Reward>, b: seq<Reward>, x: Reward, selected: string)
    ensures FilteredRewards(a + b, selected) == FilteredRewards(a, selected) + FilteredRewards(b, selected)
    ensures FilteredRewards([x], selected) == if selected == "all" || x.kind == selected then [x] else []
  {
    if selected != "all" {
      Lists.FilterSplits(a, b, x, (w: Reward) => w.kind == selected);
    }
  }

  /** The filter chips select by type: 'discount' finds the hotel and gear
      rewards, while a category name such as 'travel' finds nothing. */
  lemma FilterChipsOnCatalogue()
    ensures Catalogue[0] in FilteredRewards(Catalogue, "discount")
    ensures Catalogue[5] in FilteredRewards(Catalogue, "discount")
    ensures FilteredRewards(Catalogue, "travel") == []
  {
    assert forall k :: 0 <= k < |Catalogue| ==> Catalogue[k].kind != "travel";
  }

  /** `getCategoryColor`: the table's colour, or '#666' for any other category. */
  function CategoryColor(category: string): (c: string)
    ensures category !in {"accommodation", "insurance", "travel", "activity", "app", "gear"} ==> c == "#666"
    ensures category in {"accommodation", "insurance", "travel", "activity", "app", "gear"} ==> c != "#666"
  {
    var colors := map["accommodation" := "#2196F3", "insurance" := "#F44336", "travel" := "#FF9800",
                      "activity" := "#4CAF50", "app" := "#9C27B0", "gear" := "#607D8B"];
    if category in colors then colors[category] else "#666"
  }

  /** One row of the points history: a '+' and green exactly for a gain. */
  datatype HistoryLine = HistoryLine(text: string, color: string)

  function HistoryDisplay(points: int): (h: HistoryLine)
    ensures points > 0 ==> h.text == "+" + Text.IntToString(points) && h.color == "#4CAF50"
    ensures points <= 0 ==> h.text == Text.IntToString(points) && h.color == "#F44336"
  {
    HistoryLine((if points > 0 then "+" else "") + Text.IntToString(points),
                if points > 0 then "#4CAF50" else "#F44336")
  }

  /** Gains start with '+', losses with '-', and zero with neither. */
  lemma HistorySigns(points: int)
    ensures HistoryDisplay(points).text[0] == '+' <==> points > 0
    ensures HistoryDisplay(points).text[0] == '-' <==> points < 0
  {
    Text.IntToStringSign(points);
  }
}
