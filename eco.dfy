/** The eco-friendly travel screen: bookmarking tips by a `section-tip` id,
    and the carbon-level colours. */
module Eco {
  import Lists
  import Text

  /** The tip sections' titles and tips, as listed on the screen. */
  const EcoTips: seq<(string, seq<string>)> := [
    ("Accommodation", ["Choose eco-certified hostels and hotels", "Reuse towels and sheets", "Turn off lights and AC when leaving"]),
    ("Food & Drink", ["Eat local and seasonal food", "Carry a reusable water bottle", "Support local farmers markets"]),
    ("Activities", ["Choose nature-based activities", "Respect wildlife and habitats", "Leave no trace when hiking"])
  ]

  /** The id `${sectionIndex}-${tipIndex}` of a tip. */
  function TipId(sectionIndex: nat, tipIndex: nat): (id: string)
    ensures id == Text.NatToString(sectionIndex) + "-" + Text.NatToString(tipIndex)
    ensures '-' in id
  {
    var id := Text.NatToString(sectionIndex) + "-" + Text.NatToString(tipIndex);
    assert id[|Text.NatToString(sectionIndex)|] == '-';
    id
  }

  /** Distinct tips have distinct ids: the dash cannot occur in a rendered
      number, so the id determines both indices. */
  lemma TipIdInjective(s1: nat, t1: nat, s2: nat, t2: nat)
    requires TipId(s1, t1) == TipId(s2, t2)
    ensures s1 == s2 && t1 == t2
  {
    var a1, a2 := Text.NatToString(s1), Text.NatToString(s2);
    assert '-' !in a1 by { assert forall k :: 0 <= k < |a1| ==> Text.IsDigit(a1[k]); }
    assert '-' !in a2 by { assert forall k :: 0 <= k < |a2| ==> Text.IsDigit(a2[k]); }
    Text.SplitAtFirst(a1, Text.NatToString(t1), a2, Text.NatToString(t2), '-');
    Text.NatToStringInjective(s1, s2);
    Text.NatToStringInjective(t1, t2);
  }

  /** Pressing a tip: its id is removed (every occurrence) if bookmarked,
      otherwise appended. */
  function PressTip(selectedTips: seq<string>, sectionIndex: nat, tipIndex: nat): (r: seq<string>)
    ensures TipId(sectionIndex, tipIndex) !in selectedTips ==> r == selectedTips + [TipId(sectionIndex, tipIndex)]
    ensures TipId(sectionIndex, tipIndex) in selectedTips ==> TipId(sectionIndex, tipIndex) !in r
  {
    Lists.Toggle(selectedTips, TipId(sectionIndex, tipIndex))
  }

  /** The bookmark icon is shown exactly for the tips whose id is selected. */
  predicate Bookmarked(selectedTips: seq<string>, sectionIndex: nat, tipIndex: nat) {
    TipId(sectionIndex, tipIndex) in selectedTips
  }

  /** A press flips the pressed tip's bookmark and no other tip's. */
  lemma PressFlipsOnlyThatTip(selectedTips: seq<string>, s: nat, t: nat, s2: nat, t2: nat)
    ensures Bookmarked(PressTip(selectedTips, s, t), s, t) <==> !Bookmarked(selectedTips, s, t)
    ensures (s2, t2) != (s, t) ==>
      (Bookmarked(PressTip(selectedTips, s, t), s2, t2) <==> Bookmarked(selectedTips, s2, t2))
  {
    if (s2, t2) != (s, t) {
      if TipId(s2, t2) == TipId(s, t) {
        TipIdInjective(s2, t2, s, t);
      }
      Lists.ToggleIsolated(selectedTips, TipId(s, t), TipId(s2, t2));
    }
  }

  /** The ids of two real tips differ, for example "0-1" and "1-0". */
  lemma TipIdExample()
    ensures TipId(0, 1) == "0-1" && TipId(1, 0) == "1-0"
  {
  }

  /** `getCarbonColor`: three named levels with three distinct colours, red otherwise. */
  function CarbonColor(level: string): (color: string)
    ensures level !in {"Zero", "Low", "Medium"} <==> color == "#F44336"
  {
    match level
    case "Zero" => "#4CAF50"
    case "Low" => "#8BC34A"
    case "Medium" => "#FF9800"
    case _ => "#F44336"
  }

  /** The three named levels are told apart. */
  lemma CarbonColorsDistinct()
    ensures CarbonColor("Zero") != CarbonColor("Low")
    ensures CarbonColor("Low") != CarbonColor("Medium")
    ensures CarbonColor("Zero") != CarbonColor("Medium")
  {
  }
}
