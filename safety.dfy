/** The safety screen: the SOS flag, adding an emergency contact, and the
    safety-tip category icons and colours. */
module Safety {

  datatype Contact = Contact(id: string, name: string, phone: string, email: string)

  /** The add form. */
  datatype NewContact = NewContact(name: string, phone: string, email: string)

  /** The screen's state slots (the tips are constant and left out). */
  datatype SafetyState = SafetyState(
    emergencyContacts: seq<Contact>, showContactDialog: bool, newContact: NewContact, sosActive: bool)

  const EmptyForm: NewContact := NewContact("", "", "")

  const Initial: SafetyState := SafetyState(
    [Contact("1", "John Doe", "+1-555-0123", "john@email.com"),
     Contact("2", "Jane Smith", "+1-555-0456", "jane@email.com")],
    false, EmptyForm, false)

  /** The two buttons of the alert `activateSOS` raises. */
  datatype SosChoice = CancelSos | KeepActive

  /** The SOS flag after the alert is answered: off for 'Cancel SOS', on for
      'Keep Active', whatever it was before; nothing else changes. */
  function ActivateSos(s: SafetyState, choice: SosChoice): (r: SafetyState)
    ensures r.sosActive <==> choice == KeepActive
    ensures r.(sosActive := s.sosActive) == s
  {
    s.(sosActive := choice == KeepActive)
  }

  /** The SOS button's caption. */
  function SosButtonCaption(s: SafetyState): (caption: string)
    ensures caption == "Deactivate SOS" <==> s.sosActive
  {
    if s.sosActive then "Deactivate SOS" else "Activate SOS"
  }

  /** The caption reads 'Deactivate SOS' exactly after 'Keep Active', so the
      user can always return to 'Activate SOS' through 'Cancel SOS'. */
  lemma CaptionFollowsChoice(s: SafetyState, choice: SosChoice)
    ensures SosButtonCaption(ActivateSos(s, choice)) == "Deactivate SOS" <==> choice == KeepActive
    ensures SosButtonCaption(ActivateSos(ActivateSos(s, choice), CancelSos)) == "Activate SOS"
  {
  }

  /** `addEmergencyContact` with a fresh id: nothing unless name and phone are
      non-empty (not trimmed; the email is optional); otherwise the form's
      fields are appended as a contact, the form cleared and the dialog closed. */
  function AddEmergencyContact(s: SafetyState, freshId: string): (r: SafetyState)
    ensures s.newContact.name == "" || s.newContact.phone == "" ==> r == s
    ensures s.newContact.name != "" && s.newContact.phone != "" ==>
      var f := s.newContact;
      && |r.emergencyContacts| == |s.emergencyContacts| + 1
      && r.emergencyContacts[..|s.emergencyContacts|] == s.emergencyContacts
      && r.emergencyContacts[|s.emergencyContacts|] == Contact(freshId, f.name, f.phone, f.email)
      && r.newContact == EmptyForm && !r.showContactDialog && r.sosActive == s.sosActive
  {
    var f := s.newContact;
    if f.name != "" && f.phone != "" then
      s.(emergencyContacts := s.emergencyContacts + [Contact(freshId, f.name, f.phone, f.email)],
         newContact := EmptyForm, showContactDialog := false)
    else s
  }

  /** Adding a contact never drops one. */
  lemma AddContactKeepsOthers(s: SafetyState, freshId: string, c: Contact)
    requires c in s.emergencyContacts
    ensures c in AddEmergencyContact(s, freshId).emergencyContacts
  {
    var r := AddEmergencyContact(s, freshId);
    if r != s {
      assert r.emergencyContacts == s.emergencyContacts + [r.emergencyContacts[|s.emergencyContacts|]];
    }
  }

  /** Unlike the emergency screen, the check does not trim: a name and phone of
      single spaces are accepted. */
  lemma SpacesPassTheCheck(s: SafetyState, freshId: string)
    requires s.newContact == NewContact(" ", " ", "")
    ensures |AddEmergencyContact(s, freshId).emergencyContacts| == |s.emergencyContacts| + 1
  {
  }

  /** `getCategoryIcon` and `getCategoryColor`, with their defaults. */
  function CategoryIcon(category: string): (icon: string)
    ensures category !in {"health", "crime", "transport"} <==> icon == "information"
  {
    match category
    case "health" => "medical-bag"
    case "crime" => "shield-alert"
    case "transport" => "car"
    case _ => "information"
  }

  function CategoryColor(category: string): (color: string)
    ensures category !in {"health", "crime", "transport"} <==> color == "#FF9800"
  {
    match category
    case "health" => "#4CAF50"
    case "crime" => "#F44336"
    case "transport" => "#2196F3"
    case _ => "#FF9800"
  }
}
