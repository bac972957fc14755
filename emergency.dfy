/** The emergency screen's contact list: adding a contact under the trimmed
    name-and-phone check, with id and priority counted from the list length. */
module Emergency {
  import Text

  datatype Contact = Contact(id: int, name: string, phone: string, relationship: string, priority: int)

  /** The add form. */
  datatype NewContact = NewContact(name: string, phone: string, relationship: string)

  /** The screen's state slots. */
  datatype EmergencyState = EmergencyState(
    emergencyContacts: seq<Contact>, showAddContact: bool, newContact: NewContact)

  const EmptyForm: NewContact := NewContact("", "", "")

  const InitialContacts: seq<Contact> := [
    Contact(1, "Mom", "+1-555-0123", "Mother", 1),
    Contact(2, "Emergency Insurance", "+1-800-HELP-NOW", "Travel Insurance", 2)
  ]

  const Initial: EmergencyState := EmergencyState(InitialContacts, false, EmptyForm)

  /** `addEmergencyContact`: a blank name or phone (after trimming) changes
      nothing; otherwise the contact, with the name and phone as typed, the
      relationship defaulting to 'Emergency Contact', and id and priority one
      past the list length, is appended, the form cleared and the dialog closed. */
  function AddEmergencyContact(s: EmergencyState): (r: EmergencyState)
    ensures Text.IsBlank(s.newContact.name) || Text.IsBlank(s.newContact.phone) ==> r == s
    ensures !Text.IsBlank(s.newContact.name) && !Text.IsBlank(s.newContact.phone) ==>
      var f := s.newContact;
      var n := |s.emergencyContacts|;
      && |r.emergencyContacts| == n + 1
      && r.emergencyContacts[..n] == s.emergencyContacts
      && r.emergencyContacts[n] == Contact(n + 1, f.name, f.phone,
                                           if f.relationship == "" then "Emergency Contact" else f.relationship, n + 1)
      && r.newContact == EmptyForm && !r.showAddContact
  {
    var f := s.newContact;
    if Text.IsBlank(f.name) || Text.IsBlank(f.phone) then s
    else
      var n := |s.emergencyContacts|;
      var contact := Contact(n + 1, f.name, f.phone, if f.relationship != "" then f.relationship else "Emergency Contact", n + 1);
      EmergencyState(s.emergencyContacts + [contact], false, EmptyForm)
  }

  /** The contacts are numbered 1, 2, ... in list order, by id and by priority. */
  predicate Numbered(contacts: seq<Contact>) {
    forall k :: 0 <= k < |contacts| ==> contacts[k].id == k + 1 && contacts[k].priority == k + 1
  }

  /** The initial list is numbered, and adding a contact keeps it numbered. */
  lemma AddKeepsNumbered(s: EmergencyState)
    requires Numbered(s.emergencyContacts)
    ensures Numbered(AddEmergencyContact(s).emergencyContacts)
    ensures Numbered(Initial.emergencyContacts)
  {
  }

  /** So, starting from the initial list, no two contacts share an id. */
  lemma NumberedIdsAreUnique(contacts: seq<Contact>, j: int, k: int)
    requires Numbered(contacts) && 0 <= j < k < |contacts|
    ensures contacts[j].id != contacts[k].id
  {
  }

  /** The list after any number of presses on Save, whatever was typed each time. */
  function AddAll(s: EmergencyState, forms: seq<NewContact>): EmergencyState
    decreases |forms|
  {
    if forms == [] then s else AddAll(AddEmergencyContact(s.(newContact := forms[0])), forms[1..])
  }

  /** Every reachable list is numbered 1..n and only grows at the end. */
  lemma {:induction false} AddAllKeepsNumbered(s: EmergencyState, forms: seq<NewContact>)
    requires Numbered(s.emergencyContacts)
    ensures Numbered(AddAll(s, forms).emergencyContacts)
    ensures s.emergencyContacts <= AddAll(s, forms).emergencyContacts
    decreases |forms|
  {
    if forms != [] {
      var s1 := AddEmergencyContact(s.(newContact := forms[0]));
      AddKeepsNumbered(s.(newContact := forms[0]));
      AddAllKeepsNumbered(s1, forms[1..]);
    }
  }

  /** A name of spaces is refused ... */
  lemma BlankNameIsRefused()
    ensures var s := Initial.(newContact := NewContact("  ", "123", "")); AddEmergencyContact(s) == s
  {
    Text.BlankIffAllSpace("  ");
  }

  /** ... while a name with surrounding spaces is stored as typed. */
  lemma UntrimmedNameIsStored()
    ensures var r := AddEmergencyContact(Initial.(newContact := NewContact(" Ann ", "123", "")));
      |r.emergencyContacts| == 3 && r.emergencyContacts[2] == Contact(3, " Ann ", "123", "Emergency Contact", 3)
  {
    Text.NonSpaceIsNotBlank(" Ann ", 1);
    Text.NonSpaceIsNotBlank("123", 0);
  }
}
