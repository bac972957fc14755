/** The list rules of the group and event documents, with the document store
    itself abstracted away: a read document is an `Option` (None when it does
    not exist) and a write is returned rather than performed. */
module Firestore {
  import opened Wrappers

  /** An entry of an event's `attendees`. Entries pushed by an attendance
      update carry no name or avatar. */
  datatype Attendee = Attendee(
    id: string,
    name: Option<string>,
    status: string,
    avatar: Option<string>,
    responseAt: int)

  /** The stored event as far as attendance goes; `attendees` may be missing. */
  datatype EventDoc = EventDoc(attendees: Option<seq<Attendee>>)

  /** The profile fields a joining user supplies. */
  datatype MemberData = MemberData(id: string, name: string, role: string, avatar: string)

  /** A member entry: the supplied profile plus the join instant. */
  datatype Member = Member(data: MemberData, joinedAt: int)

  /** The stored group as far as membership goes; `members` may be missing. */
  datatype GroupDoc = GroupDoc(members: Option<seq<Member>>, memberCount: int)

  /** The fields `joinGroup` writes. */
  datatype GroupWrite = GroupWrite(members: seq<Member>, memberCount: int)

  predicate UniqueIds(s: seq<Attendee>) {
    forall i, j :: 0 <= i < j < |s| ==> s[i].id != s[j].id
  }

  /** `findIndex(a => a.id === userId)`: the first matching index, or -1. */
  function FirstIndexOf(s: seq<Attendee>, userId: string): (i: int)
    ensures -1 <= i < |s|
    ensures i >= 0 ==> s[i].id == userId && forall k :: 0 <= k < i ==> s[k].id != userId
    ensures i == -1 ==> forall k :: 0 <= k < |s| ==> s[k].id != userId
    decreases |s|
  {
    if s == [] then -1
    else if s[0].id == userId then 0
    else
      var j := FirstIndexOf(s[1..], userId);
      if j == -1 then -1 else j + 1
  }

  /** The attendee list after an update: the first entry for the user gets the
      new status and response instant, otherwise a new entry is pushed. */
  function Upsert(s: seq<Attendee>, userId: string, status: string, now: int): (r: seq<Attendee>)
    ensures FirstIndexOf(s, userId) >= 0 ==> |r| == |s|
    ensures FirstIndexOf(s, userId) == -1 ==> |r| == |s| + 1 && r[..|s|] == s
    ensures forall k :: 0 <= k < |s| && k != FirstIndexOf(s, userId) ==> r[k] == s[k]
  {
    var i := FirstIndexOf(s, userId);
    if i >= 0 then s[i := s[i].(status := status, responseAt := now)]
    else s + [Attendee(userId, None, status, None, now)]
  }

  /** The linear search of `findIndex`. */
  method FindIndex(s: seq<Attendee>, userId: string) returns (idx: int)
    ensures idx == FirstIndexOf(s, userId)
  {
    var i := 0;
    while i < |s|
      invariant 0 <= i <= |s|
      invariant forall k :: 0 <= k < i ==> s[k].id != userId
    {
      if s[i].id == userId {
        FirstIndexIsUnique(s, userId, i);
        return i;
      }
      i := i + 1;
    }
    return -1;
  }

  /** Only one index is the first match. */
  lemma FirstIndexIsUnique(s: seq<Attendee>, userId: string, i: int)
    requires 0 <= i < |s| && s[i].id == userId
    requires forall k :: 0 <= k < i ==> s[k].id != userId
    ensures FirstIndexOf(s, userId) == i
  {
  }

  /** `updateEventAttendance`: no write when the event does not exist; otherwise
      the attendee list (an empty one when the field is missing) is updated in
      place or extended, and written back. */
  method UpdateEventAttendance(doc: Option<EventDoc>, userId: string, status: string, now: int)
    returns (write: Option<seq<Attendee>>)
    ensures doc.None? ==> write.None?
    ensures doc.Some? ==> write == Some(Upsert(doc.value.attendees.GetOr([]), userId, status, now))
  {
    if doc.None? {
      return None;
    }
    var attendees := doc.value.attendees.GetOr([]);
    var existing := FindIndex(attendees, userId);
    if existing >= 0 {
      attendees := attendees[existing := attendees[existing].(status := status, responseAt := now)];
    } else {
      attendees := attendees + [Attendee(userId, None, status, None, now)];
    }
    return Some(attendees);
  }

  /** An existing attendee: the first entry with the id gets the new status and
      response instant, keeps its id, name and avatar, and the length is unchanged. */
  lemma UpsertUpdatesFirstMatch(s: seq<Attendee>, userId: string, status: string, now: int, i: int)
    requires 0 <= i < |s| && s[i].id == userId
    requires forall k :: 0 <= k < i ==> s[k].id != userId
    ensures var r := Upsert(s, userId, status, now);
      |r| == |s| && r[i] == Attendee(userId, s[i].name, status, s[i].avatar, now)
      && forall k :: 0 <= k < |s| && k != i ==> r[k] == s[k]
  {
    FirstIndexIsUnique(s, userId, i);
  }

  /** A new attendee: one entry `{id, status, responseAt}` is pushed at the end. */
  lemma UpsertAppendsNew(s: seq<Attendee>, userId: string, status: string, now: int)
    requires forall k :: 0 <= k < |s| ==> s[k].id != userId
    ensures Upsert(s, userId, status, now) == s + [Attendee(userId, None, status, None, now)]
  {
  }

  /** Afterwards the user is among the attendees with the given status. */
  lemma UpsertRecordsStatus(s: seq<Attendee>, userId: string, status: string, now: int)
    ensures var r := Upsert(s, userId, status, now);
      exists k :: 0 <= k < |r| && r[k].id == userId && r[k].status == status && r[k].responseAt == now
  {
    var r := Upsert(s, userId, status, now);
    var i := FirstIndexOf(s, userId);
    if i >= 0 {
      assert r[i].id == userId && r[i].status == status;
    } else {
      assert r[|s|].id == userId && r[|s|].status == status;
    }
  }

  /** Ids that were unique stay unique. */
  lemma UpsertKeepsUniqueIds(s: seq<Attendee>, userId: string, status: string, now: int)
    requires UniqueIds(s)
    ensures UniqueIds(Upsert(s, userId, status, now))
  {
    var r := Upsert(s, userId, status, now);
    if FirstIndexOf(s, userId) == -1 {
      forall i, j | 0 <= i < j < |r| ensures r[i].id != r[j].id {
        if j == |s| {
          assert r[i] == s[i];
        } else {
          assert r[i] == s[i] && r[j] == s[j];
        }
      }
    }
  }

  /** Repeating the update differs from doing it once only in the response
      instant: the statuses, ids and length are those of the single update. */
  lemma UpsertTwice(s: seq<Attendee>, userId: string, status: string, t1: int, t2: int)
    ensures Upsert(Upsert(s, userId, status, t1), userId, status, t2) == Upsert(s, userId, status, t2)
  {
    var i := FirstIndexOf(s, userId);
    var r := Upsert(s, userId, status, t1);
    if i >= 0 {
      FirstIndexIsUnique(r, userId, i);
    } else {
      assert forall k :: 0 <= k < |s| ==> r[k] == s[k];
      FirstIndexIsUnique(r, userId, |s|);
    }
  }

  /** `joinGroup`: no write when the group does not exist; otherwise the member
      list (empty when missing) with the new member, stamped `now`, at the end,
      and `memberCount` its new length. The user id is not consulted, so a user
      who joins twice is listed twice. */
  function JoinGroup(doc: Option<GroupDoc>, userId: string, userData: MemberData, now: int): (write: Option<GroupWrite>)
    ensures doc.None? ==> write.None?
    ensures doc.Some? ==> (
      && write.Some?
      && var before := doc.value.members.GetOr([]);
         && |write.value.members| == |before| + 1
         && write.value.members[..|before|] == before
         && write.value.members[|before|] == Member(userData, now)
         && write.value.memberCount == |write.value.members|)
  {
    if doc.Some? then
      var currentMembers := doc.value.members.GetOr([]);
      var updatedMembers := currentMembers + [Member(userData, now)];
      Some(GroupWrite(updatedMembers, |updatedMembers|))
    else None
  }

  /** Joining twice lists the user twice: the member count grows by two. */
  lemma JoinGroupTwiceCountsTwice(members: seq<Member>, count: int, userId: string, userData: MemberData, t1: int, t2: int)
    ensures var w1 := JoinGroup(Some(GroupDoc(Some(members), count)), userId, userData, t1).value;
      var w2 := JoinGroup(Some(GroupDoc(Some(w1.members), w1.memberCount)), userId, userData, t2).value;
      w2.memberCount == |members| + 2 && w2.members[|members|].data == w2.members[|members| + 1].data
  {
  }
}
