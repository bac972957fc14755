/** The event chat component: how long ago a message was sent, the avatar
    initials, who gets an avatar, and sending a message. */
module EventChat {
  import opened Wrappers
  import Text

  const MsPerMinute: int := 60000
  const MsPerHour: int := 3600000
  const MsPerDay: int := 86400000

  datatype ChatMessage = ChatMessage(
    id: string,
    userId: string,
    userName: string,
    message: string,
    timestamp: int,
    avatar: Option<string>)

  /** The bucket `formatTimestamp` puts an age into. `OnDate` is shown as the
      locale date of the timestamp. */
  datatype Stamp = JustNow | MinutesAgo(minutes: nat) | HoursAgo(hours: nat) | DaysAgo(days: nat) | OnDate

  /** `formatTimestamp` for a message `diffMs` milliseconds old (negative for
      a timestamp in the future). Each bucket's number is the age rounded down
      to whole units. */
  function FormatTimestamp(diffMs: int): (r: Stamp)
    ensures r.JustNow? <==> diffMs < MsPerMinute
    ensures r.MinutesAgo? <==> MsPerMinute <= diffMs < MsPerHour
    ensures r.HoursAgo? <==> MsPerHour <= diffMs < MsPerDay
    ensures r.DaysAgo? <==> MsPerDay <= diffMs < 7 * MsPerDay
    ensures r.OnDate? <==> 7 * MsPerDay <= diffMs
    ensures r.MinutesAgo? ==> 1 <= r.minutes < 60 && r.minutes * MsPerMinute <= diffMs < (r.minutes + 1) * MsPerMinute
    ensures r.HoursAgo? ==> 1 <= r.hours < 24 && r.hours * MsPerHour <= diffMs < (r.hours + 1) * MsPerHour
    ensures r.DaysAgo? ==> 1 <= r.days < 7 && r.days * MsPerDay <= diffMs < (r.days + 1) * MsPerDay
  {
    var diffMins := diffMs / MsPerMinute;
    var diffHours := diffMs / MsPerHour;
    var diffDays := diffMs / MsPerDay;
    if diffMins < 1 then JustNow
    else if diffMins < 60 then MinutesAgo(diffMins)
    else if diffHours < 24 then HoursAgo(diffHours)
    else if diffDays < 7 then DaysAgo(diffDays)
    else OnDate
  }

  /** The text shown for a bucket; `dateText` is the locale rendering of the
      timestamp, used only for `OnDate`. */
  function StampText(s: Stamp, dateText: string): string {
    match s
    case JustNow => "Just now"
    case MinutesAgo(n) => Text.NatToString(n) + "m ago"
    case HoursAgo(n) => Text.NatToString(n) + "h ago"
    case DaysAgo(n) => Text.NatToString(n) + "d ago"
    case OnDate => dateText
  }

  /** The exact unit boundaries and their neighbours. */
  lemma FormatTimestampBoundaries(dateText: string)
    ensures StampText(FormatTimestamp(59999), dateText) == "Just now"
    ensures StampText(FormatTimestamp(60000), dateText) == "1m ago"
    ensures StampText(FormatTimestamp(3599999), dateText) == "59m ago"
    ensures StampText(FormatTimestamp(3600000), dateText) == "1h ago"
    ensures StampText(FormatTimestamp(86399999), dateText) == "23h ago"
    ensures StampText(FormatTimestamp(86400000), dateText) == "1d ago"
    ensures StampText(FormatTimestamp(7 * 86400000 - 1), dateText) == "6d ago"
    ensures StampText(FormatTimestamp(7 * 86400000), dateText) == dateText
  {
    assert Text.NatToString(59) == "59";
    assert Text.NatToString(23) == "23";
  }

  /** Every age below one minute, including any future timestamp, is "Just now". */
  lemma FutureIsJustNow(diffMs: int, dateText: string)
    requires diffMs < MsPerMinute
    ensures StampText(FormatTimestamp(diffMs), dateText) == "Just now"
  {
  }

  /** Older never reads as more recent: the bucket order follows the age. */
  function Rank(s: Stamp): nat {
    match s
    case JustNow => 0
    case MinutesAgo(_) => 1
    case HoursAgo(_) => 2
    case DaysAgo(_) => 3
    case OnDate => 4
  }

  lemma FormatTimestampMonotone(d1: int, d2: int)
    requires d1 <= d2
    ensures Rank(FormatTimestamp(d1)) <= Rank(FormatTimestamp(d2))
    ensures FormatTimestamp(d1).MinutesAgo? && FormatTimestamp(d2).MinutesAgo? ==>
              FormatTimestamp(d1).minutes <= FormatTimestamp(d2).minutes
    ensures FormatTimestamp(d1).HoursAgo? && FormatTimestamp(d2).HoursAgo? ==>
              FormatTimestamp(d1).hours <= FormatTimestamp(d2).hours
    ensures FormatTimestamp(d1).DaysAgo? && FormatTimestamp(d2).DaysAgo? ==>
              FormatTimestamp(d1).days <= FormatTimestamp(d2).days
  {
  }

  /** The first character of each piece; an empty piece contributes nothing,
      as `undefined` joins as the empty string. */
  function FirstChars(parts: seq<string>): (r: string)
    ensures |r| <= |parts|
    decreases |parts|
  {
    if parts == [] then ""
    else (if parts[0] == "" then "" else [parts[0][0]]) + FirstChars(parts[1..])
  }

  /** The avatar label: the first character of every space-separated part of the name. */
  function Initials(userName: string): string {
    FirstChars(Text.Split(userName, ' '))
  }

  /** A name whose parts are all non-empty (no leading, trailing or doubled
      space) gets one initial per part, none of them a space. */
  lemma {:induction false} FirstCharsOfNonEmptyParts(parts: seq<string>)
    requires forall k :: 0 <= k < |parts| ==> parts[k] != ""
    ensures |FirstChars(parts)| == |parts|
    ensures forall k :: 0 <= k < |parts| ==> FirstChars(parts)[k] == parts[k][0]
    decreases |parts|
  {
    if parts != [] {
      FirstCharsOfNonEmptyParts(parts[1..]);
    }
  }

  /** A first and a last name, each without spaces, give two initials. */
  lemma InitialsOfTwoNames(first: string, last: string)
    requires first != "" && last != "" && ' ' !in first && ' ' !in last
    ensures Initials(first + " " + last) == [first[0], last[0]]
  {
    Text.SplitAtSeparator(first, last, ' ');
    Text.SplitWithoutSeparator(last, ' ');
    assert first + " " + last == first + [' '] + last;
    var parts := [first, last];
    assert Text.Split(first + " " + last, ' ') == parts;
    assert parts[1..] == [last] && [last][1..] == [];
    assert FirstChars([last]) == [last[0]] + FirstChars([]);
    assert FirstChars(parts) == [first[0]] + FirstChars([last]);
  }

  lemma InitialsOfMockUsers()
    ensures Initials("Sarah Johnson") == "SJ"
    ensures Initials("") == ""
  {
    InitialsOfTwoNames("Sarah", "Johnson");
    assert "Sarah" + " " + "Johnson" == "Sarah Johnson";
  }

  /** No initial is a space, and there is at most one per space-separated part. */
  lemma InitialsShape(userName: string)
    ensures |Initials(userName)| <= Text.CountChar(userName, ' ') + 1
    ensures ' ' !in Initials(userName)
  {
    Text.SplitCount(userName, ' ');
    Text.SplitPiecesHaveNoSeparator(userName, ' ');
    FirstCharsAvoidSeparator(Text.Split(userName, ' '), ' ');
  }

  lemma {:induction false} FirstCharsAvoidSeparator(parts: seq<string>, sep: char)
    requires forall k :: 0 <= k < |parts| ==> sep !in parts[k]
    ensures sep !in FirstChars(parts)
    decreases |parts|
  {
    if parts != [] {
      FirstCharsAvoidSeparator(parts[1..], sep);
      if parts[0] != "" {
        assert parts[0][0] in parts[0];
      }
    }
  }

  /** What `renderMessage` shows for one message. */
  datatype Rendering = Rendering(
    showAvatar: bool,
    avatarLabel: string,
    showName: bool,
    name: string,
    text: string,
    stamp: Stamp)

  function RenderMessage(m: ChatMessage, currentUserId: string, now: int): (r: Rendering)
    ensures r.showAvatar <==> m.userId != currentUserId
    ensures r.showName <==> m.userId != currentUserId
    ensures r.avatarLabel == Initials(m.userName) && r.name == m.userName && r.text == m.message
    ensures r.stamp == FormatTimestamp(now - m.timestamp)
  {
    var isCurrentUser := m.userId == currentUserId;
    Rendering(!isCurrentUser, Initials(m.userName), !isCurrentUser, m.userName, m.message,
              FormatTimestamp(now - m.timestamp))
  }

  /** The component's state slots. */
  datatype ChatState = ChatState(messages: seq<ChatMessage>, newMessage: string, isLoading: bool)

  const Initial: ChatState := ChatState([], "", false)

  /** The three demonstration messages loaded at instant `now`. */
  function MockMessages(now: int): (msgs: seq<ChatMessage>)
    ensures |msgs| == 3
    ensures forall k :: 0 <= k < |msgs| ==> now - MsPerHour <= msgs[k].timestamp < now
    ensures forall k :: 0 < k < |msgs| ==> msgs[k - 1].timestamp < msgs[k].timestamp
  {
    [ ChatMessage("1", "user1", "Sarah Johnson", "Hey everyone! Looking forward to this event \U{1F389}", now - 3600000, None),
      ChatMessage("2", "user2", "Mike Chen", "Same here! Should we meet at the entrance?", now - 1800000, None),
      ChatMessage("3", "user3", "Emma Wilson", "I can bring some snacks if anyone wants!", now - 900000, None) ]
  }

  /** The load effect: the messages become the demonstration messages. */
  function Load(s: ChatState, now: int): ChatState {
    s.(messages := MockMessages(now))
  }

  /** Right after loading, the messages read one hour, 30 minutes and 15 minutes ago. */
  lemma LoadedAges(s: ChatState, now: int)
    ensures var m := Load(s, now).messages;
      && StampText(FormatTimestamp(now - m[0].timestamp), "") == "1h ago"
      && StampText(FormatTimestamp(now - m[1].timestamp), "") == "30m ago"
      && StampText(FormatTimestamp(now - m[2].timestamp), "") == "15m ago"
  {
    assert Text.NatToString(30) == "30";
    assert Text.NatToString(15) == "15";
  }

  /** `sendMessage` with a fresh id and the current instant: nothing for a blank
      input; otherwise the trimmed text is appended as the current user's
      message and the input cleared (`isLoading` is set and reset within the handler). */
  function SendMessage(s: ChatState, currentUserId: string, currentUserName: string, freshId: string, now: int): (r: ChatState)
    ensures Text.IsBlank(s.newMessage) ==> r == s
    ensures !Text.IsBlank(s.newMessage) ==>
      && |r.messages| == |s.messages| + 1
      && r.messages[..|s.messages|] == s.messages
      && r.messages[|s.messages|] == ChatMessage(freshId, currentUserId, currentUserName, Text.Trim(s.newMessage), now, None)
      && r.newMessage == "" && !r.isLoading
  {
    if Text.IsBlank(s.newMessage) then s
    else
      var message := ChatMessage(freshId, currentUserId, currentUserName, Text.Trim(s.newMessage), now, None);
      ChatState(s.messages + [message], "", false)
  }

  /** A message sent at `now` is stamped `now`, so read within the minute it says "Just now". */
  lemma SentMessageReadsJustNow(s: ChatState, uid: string, uname: string, id: string, now: int, later: int, dateText: string)
    requires !Text.IsBlank(s.newMessage) && now <= later < now + MsPerMinute
    ensures var r := SendMessage(s, uid, uname, id, now);
      StampText(FormatTimestamp(later - r.messages[|s.messages|].timestamp), dateText) == "Just now"
  {
    var r := SendMessage(s, uid, uname, id, now);
    FutureIsJustNow(later - r.messages[|s.messages|].timestamp, dateText);
  }

  /** Every message text is non-blank and has no surrounding white space. */
  predicate CleanMessages(msgs: seq<ChatMessage>) {
    forall k :: 0 <= k < |msgs| ==> msgs[k].message != "" && Text.Trim(msgs[k].message) == msgs[k].message
  }

  /** Sending keeps every message clean: what is appended is a non-empty trimmed text. */
  lemma SendKeepsClean(s: ChatState, currentUserId: string, currentUserName: string, freshId: string, now: int)
    requires CleanMessages(s.messages)
    ensures CleanMessages(SendMessage(s, currentUserId, currentUserName, freshId, now).messages)
  {
    if !Text.IsBlank(s.newMessage) {
      Text.TrimIdempotent(s.newMessage);
    }
  }

  /** The cleared input makes an immediate second send do nothing. */
  lemma SendTwiceSendsOnce(s: ChatState, uid: string, uname: string, id1: string, id2: string, t1: int, t2: int)
    ensures var once := SendMessage(s, uid, uname, id1, t1);
      SendMessage(once, uid, uname, id2, t2) == once
  {
    var once := SendMessage(s, uid, uname, id1, t1);
    Text.BlankIffAllSpace(once.newMessage);
  }

  /** Input that is only white space is never sent. */
  lemma WhitespaceIsNotSent(s: ChatState, uid: string, uname: string, id: string, now: int)
    requires Text.AllSpace(s.newMessage)
    ensures SendMessage(s, uid, uname, id, now) == s
  {
    Text.BlankIffAllSpace(s.newMessage);
  }
}
