/** The create-group form: the interest chips and the order of the form's checks. */
module CreateGroup {
  import Lists
  import Text

  /** The form's state slots. */
  datatype GroupForm = GroupForm(
    groupName: string,
    description: string,
    isPrivate: bool,
    maxMembers: string,
    destination: string,
    interests: seq<string>,
    loading: bool)

  const Initial: GroupForm := GroupForm("", "", false, "", "", [], false)

  const AvailableInterests: seq<string> := [
    "Adventure", "Budget Travel", "Photography", "Culture",
    "Food", "Nightlife", "Nature", "History", "Art", "Shopping"
  ]

  /** `toggleInterest`: every occurrence removed when present, else appended. */
  function ToggleInterest(s: GroupForm, interest: string): (r: GroupForm)
    ensures interest !in s.interests ==> r.interests == s.interests + [interest]
    ensures interest in s.interests ==> interest !in r.interests
    ensures forall x :: x != interest ==> (x in r.interests <==> x in s.interests)
    ensures r.(interests := s.interests) == s
  {
    Lists.ToggleIsolatedAll(s.interests, interest);
    s.(interests := Lists.Toggle(s.interests, interest))
  }

  /** An interest chip's `selected` flag. */
  predicate ChipSelected(s: GroupForm, interest: string) {
    interest in s.interests
  }

  /** Pressing a chip flips exactly that chip; pressing it again restores the
      selection (possibly in another order); a duplicate-free list stays so. */
  lemma ToggleInterestProperties(s: GroupForm, interest: string, other: string)
    ensures ChipSelected(ToggleInterest(s, interest), interest) <==> !ChipSelected(s, interest)
    ensures other != interest ==> (ChipSelected(ToggleInterest(s, interest), other) <==> ChipSelected(s, other))
    ensures ChipSelected(ToggleInterest(ToggleInterest(s, interest), interest), other) <==> ChipSelected(s, other)
    ensures Lists.NoDuplicates(s.interests) ==> Lists.NoDuplicates(ToggleInterest(s, interest).interests)
  {
    if Lists.NoDuplicates(s.interests) {
      Lists.ToggleKeepsNoDuplicates(s.interests, interest);
    }
  }

  /** What pressing Create leads to: the first failing check's error, or the
      start of the (simulated) creation. */
  datatype Outcome = Refused(message: string) | Creating

  /** `handleCreateGroup`: the name is checked first, then the description,
      both after trimming; only when both pass does `loading` become true. */
  function HandleCreateGroup(s: GroupForm): (r: (GroupForm, Outcome))
    ensures Text.IsBlank(s.groupName) ==> r == (s, Refused("Please enter a group name"))
    ensures !Text.IsBlank(s.groupName) && Text.IsBlank(s.description) ==> r == (s, Refused("Please enter a description"))
    ensures !Text.IsBlank(s.groupName) && !Text.IsBlank(s.description) ==> r == (s.(loading := true), Creating)
  {
    if Text.IsBlank(s.groupName) then (s, Refused("Please enter a group name"))
    else if Text.IsBlank(s.description) then (s, Refused("Please enter a description"))
    else (s.(loading := true), Creating)
  }

  /** `loading` is set exactly when creation starts, and a refusal changes nothing. */
  lemma LoadingOnlyAfterChecks(s: GroupForm)
    requires !s.loading
    ensures HandleCreateGroup(s).0.loading <==> HandleCreateGroup(s).1.Creating?
    ensures HandleCreateGroup(s).1.Refused? ==> HandleCreateGroup(s).0 == s
  {
  }

  /** The empty form is refused for its name, even with a description. */
  lemma NameCheckedFirst(description: string)
    ensures HandleCreateGroup(Initial.(description := description)).1 == Refused("Please enter a group name")
  {
    Text.BlankIffAllSpace("");
  }

  /** The timer's completion: loading ends (the alert and navigation are not modelled). */
  function CreationFinished(s: GroupForm): (r: GroupForm)
    ensures !r.loading && r.(loading := s.loading) == s
  {
    s.(loading := false)
  }
}
