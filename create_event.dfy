/** The create-event form: the date and time pickers, the group menu, the
    quick-title buttons, and the order of the form's checks. Dates are
    instants in milliseconds. */
module CreateEvent {
  import opened Wrappers
  import Text

  /** The form's state slots. */
  datatype EventForm = EventForm(
    eventTitle: string,
    description: string,
    location: string,
    date: int,
    time: int,
    duration: string,
    maxAttendees: string,
    cost: string,
    notes: string,
    isPublic: bool,
    loading: bool,
    showDatePicker: bool,
    showTimePicker: bool,
    selectedGroup: string,
    showGroupMenu: bool)

  /** The form as first shown, with both pickers' values at the current instant. */
  function Initial(now: int): EventForm {
    EventForm("", "", "", now, now, "", "", "", "", true, false, false, false, "", false)
  }

  datatype Group = Group(id: string, name: string)

  const MockGroups: seq<Group> := [Group("1", "Tokyo Adventure"), Group("2", "Backpacking Europe")]

  /** `handleDateChange`: the picker stays open only on iOS, and the date
      changes only when the picker supplied one. */
  function HandleDateChange(s: EventForm, selectedDate: Option<int>, isIOS: bool): (r: EventForm)
    ensures r.showDatePicker == isIOS
    ensures r.date == (if selectedDate.Some? then selectedDate.value else s.date)
    ensures r.(showDatePicker := s.showDatePicker, date := s.date) == s
  {
    var s1 := s.(showDatePicker := isIOS);
    if selectedDate.Some? then s1.(date := selectedDate.value) else s1
  }

  /** `handleTimeChange`, the same rule for the time. */
  function HandleTimeChange(s: EventForm, selectedTime: Option<int>, isIOS: bool): (r: EventForm)
    ensures r.showTimePicker == isIOS
    ensures r.time == (if selectedTime.Some? then selectedTime.value else s.time)
    ensures r.(showTimePicker := s.showTimePicker, time := s.time) == s
  {
    var s1 := s.(showTimePicker := isIOS);
    if selectedTime.Some? then s1.(time := selectedTime.value) else s1
  }

  /** A dismissed picker (no value) leaves date and time alone and closes off iOS. */
  lemma DismissedPickerKeepsValues(s: EventForm)
    ensures HandleDateChange(s, None, false) == s.(showDatePicker := false)
    ensures HandleTimeChange(s, None, false) == s.(showTimePicker := false)
  {
  }

  /** A menu item: that group becomes the selection and the menu closes. */
  function SelectGroup(s: EventForm, group: Group): (r: EventForm)
    ensures r.selectedGroup == group.id && !r.showGroupMenu
    ensures r.(selectedGroup := s.selectedGroup, showGroupMenu := s.showGroupMenu) == s
  {
    s.(selectedGroup := group.id, showGroupMenu := false)
  }

  /** `mockGroups.find(g => g.id === id)`. */
  function FindGroup(groups: seq<Group>, id: string): (g: Option<Group>)
    ensures g.Some? ==> g.value.id == id
    ensures g.Some? ==> exists k :: 0 <= k < |groups| && groups[k] == g.value
                          && forall j :: 0 <= j < k ==> groups[j].id != id
    ensures g.None? ==> forall k :: 0 <= k < |groups| ==> groups[k].id != id
    decreases |groups|
  {
    if groups == [] then None else if groups[0].id == id then Some(groups[0]) else FindGroup(groups[1..], id)
  }

  /** The group button's caption: 'Select Group' with nothing selected,
      otherwise the selected group's name (nothing, if no group has that id). */
  function GroupCaption(selectedGroup: string): (caption: string)
    ensures selectedGroup == "" ==> caption == "Select Group"
    ensures selectedGroup != "" && FindGroup(MockGroups, selectedGroup).Some? ==>
      caption == FindGroup(MockGroups, selectedGroup).value.name
    ensures selectedGroup != "" && FindGroup(MockGroups, selectedGroup).None? ==> caption == ""
  {
    if selectedGroup == "" then "Select Group"
    else match FindGroup(MockGroups, selectedGroup)
      case Some(g) => g.name
      case None => ""
  }

  /** Picking a group from the menu shows its name on the button. */
  lemma PickedGroupIsShown(s: EventForm, k: int)
    requires 0 <= k < |MockGroups|
    ensures GroupCaption(SelectGroup(s, MockGroups[k]).selectedGroup) == MockGroups[k].name
  {
  }

  /** The three quick-action buttons. */
  datatype QuickAction = Meetup | Tour | Dining

  function QuickTitle(s: EventForm, action: QuickAction): (r: EventForm)
    ensures r.eventTitle == match action
      case Meetup => "Group Meetup" case Tour => "Sightseeing Tour" case Dining => "Dining Experience"
    ensures r.(eventTitle := s.eventTitle) == s
  {
    s.(eventTitle := match action
      case Meetup => "Group Meetup" case Tour => "Sightseeing Tour" case Dining => "Dining Experience")
  }

  /** What pressing Create leads to: the first failing check's error, or the
      start of the (simulated) creation. */
  datatype Outcome = Refused(message: string) | Creating

  /** `handleCreateEvent`: the title (trimmed), then the group, then the
      description and the location (trimmed); the first failure is reported
      and changes nothing, and only when all pass does `loading` become true. */
  function HandleCreateEvent(s: EventForm): (r: (EventForm, Outcome))
    ensures Text.IsBlank(s.eventTitle) ==> r == (s, Refused("Please enter an event title"))
    ensures !Text.IsBlank(s.eventTitle) && s.selectedGroup == "" ==> r == (s, Refused("Please select a group"))
    ensures !Text.IsBlank(s.eventTitle) && s.selectedGroup != "" && Text.IsBlank(s.description) ==>
      r == (s, Refused("Please enter a description"))
    ensures (!Text.IsBlank(s.eventTitle) && s.selectedGroup != "" && !Text.IsBlank(s.description)
             && Text.IsBlank(s.location)) ==> r == (s, Refused("Please enter a location"))
    ensures r.1 == Creating <==>
      !Text.IsBlank(s.eventTitle) && s.selectedGroup != "" && !Text.IsBlank(s.description) && !Text.IsBlank(s.location)
    ensures r.1 == Creating ==> r.0 == s.(loading := true)
  {
    if Text.IsBlank(s.eventTitle) then (s, Refused("Please enter an event title"))
    else if s.selectedGroup == "" then (s, Refused("Please select a group"))
    else if Text.IsBlank(s.description) then (s, Refused("Please enter a description"))
    else if Text.IsBlank(s.location) then (s, Refused("Please enter a location"))
    else (s.(loading := true), Creating)
  }

  /** A quick title and a chosen group are not enough: the description is
      asked for next. */
  lemma QuickTitleThenGroupAsksDescription(now: int, action: QuickAction)
    ensures var s := SelectGroup(QuickTitle(Initial(now), action), MockGroups[0]);
      HandleCreateEvent(s).1 == Refused("Please enter a description")
  {
    Text.BlankIffAllSpace("");
    match action
    case Meetup => Text.NonSpaceIsNotBlank("Group Meetup", 0);
    case Tour => Text.NonSpaceIsNotBlank("Sightseeing Tour", 0);
    case Dining => Text.NonSpaceIsNotBlank("Dining Experience", 0);
  }

  /** The timer's completion: loading ends (the alert and navigation are not modelled). */
  function CreationFinished(s: EventForm): (r: EventForm)
    ensures !r.loading && r.(loading := s.loading) == s
  {
    s.(loading := false)
  }
}
