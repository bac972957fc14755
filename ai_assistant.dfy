/** The AI travel assistant's chat: sending a message, the canned replies,
    and the category shortcuts. Each handler is modelled together with the
    reply its timer later appends. */
module AiAssistant {
  import opened Wrappers
  import Text

  /** A chat message; `kind` is 'ai' or 'user', `timestamp` in milliseconds. */
  datatype Message = Message(id: int, kind: string, message: string, timestamp: int)

  datatype Category = Category(caption: string, icon: string, color: string)

  /** The screen's state slots. */
  datatype AssistantState = AssistantState(
    chatMessages: seq<Message>, inputText: string, selectedCategory: Option<Category>)

  const Greeting: string := "Hello! I'm your AI Travel Assistant. How can I help you plan your next adventure?"

  function Initial(now: int): AssistantState {
    AssistantState([Message(1, "ai", Greeting, now)], "", None)
  }

  const Categories: seq<Category> := [
    Category("Itinerary Planning", "map-outline", "#2196F3"),
    Category("Packing Advice", "bag-outline", "#4CAF50"),
    Category("Local Tips", "location-outline", "#FF9800"),
    Category("Budget Planning", "card-outline", "#9C27B0"),
    Category("Safety Tips", "shield-outline", "#F44336")
  ]

  /** The canned replies per category label. */
  const Responses: map<string, seq<string>> := map[
    "Itinerary Planning" := [
      "Based on your preferences, I recommend a 3-day itinerary starting with the city center, then exploring local neighborhoods, and ending with nature activities.",
      "For your trip, consider visiting these must-see attractions: museums in the morning, local markets for lunch, and scenic viewpoints in the evening."],
    "Packing Advice" := [
      "For your destination, pack layers, comfortable walking shoes, and don't forget a portable charger and universal adapter.",
      "Essential items: weather-appropriate clothing, first aid kit, copies of important documents, and local currency."],
    "Local Tips" := [
      "Local tip: Try the street food markets, use public transportation for authentic experiences, and learn basic phrases in the local language.",
      "Insider advice: Visit popular attractions early in the morning, respect local customs, and always carry cash for small vendors."],
    "Budget Planning" := [
      "Budget breakdown: Accommodation 40%, Food 25%, Transportation 20%, Activities 15%. Consider hostels and local eateries to save money.",
      "Money-saving tips: Book accommodation in advance, use city passes for attractions, and eat where locals eat."],
    "Safety Tips" := [
      "Safety first: Keep copies of documents, stay in well-lit areas at night, and inform someone of your itinerary.",
      "Travel safely: Research common scams, keep emergency contacts handy, and trust your instincts."]
  ]

  /** The replies used when no category, or an unknown one, is selected. */
  const DefaultResponses: seq<string> := [
    "I'm here to help with your travel planning! Could you be more specific about what you'd like to know?",
    "Great question! Let me provide some personalized recommendations based on your needs."
  ]

  /** `responses[category?.caption] || default`: the category's list when its
      label is known, otherwise the default list; every list has two replies. */
  function ResponseList(category: Option<Category>): (replies: seq<string>)
    ensures |replies| == 2
    ensures category.Some? && category.value.caption in Responses ==> replies == Responses[category.value.caption]
    ensures category.None? || category.value.caption !in Responses ==> replies == DefaultResponses
  {
    if category.Some? && category.value.caption in Responses then Responses[category.value.caption] else DefaultResponses
  }

  /** `generateAIResponse` with `pick`, the `Math.floor(Math.random() * 2)`
      drawn: one of the replies of that list. The input text is not used. */
  function GenerateAiResponse(category: Option<Category>, pick: nat): (reply: string)
    requires pick < 2
    ensures reply in ResponseList(category)
  {
    ResponseList(category)[pick]
  }

  /** Every category on the screen has its own replies, never the default ones. */
  lemma ScreenCategoriesHaveReplies(k: int, pick: nat)
    requires 0 <= k < |Categories| && pick < 2
    ensures GenerateAiResponse(Some(Categories[k]), pick) in Responses[Categories[k].caption]
    ensures GenerateAiResponse(Some(Categories[k]), pick) !in DefaultResponses
  {
  }

  /** The messages are numbered 1, 2, ... in list order. */
  predicate Numbered(messages: seq<Message>) {
    forall k :: 0 <= k < |messages| ==> messages[k].id == k + 1
  }

  /** `handleSendMessage` at `now`, followed by its reply at `replyAt`: a blank
      input (after trimming) does nothing; otherwise the raw input is appended
      as a 'user' message with id length + 1, the input cleared, and the reply
      for the selected category appended with id length + 2. */
  function HandleSendMessage(s: AssistantState, now: int, replyAt: int, pick: nat): (r: AssistantState)
    requires pick < 2
    ensures Text.IsBlank(s.inputText) ==> r == s
    ensures !Text.IsBlank(s.inputText) ==>
      var n := |s.chatMessages|;
      && |r.chatMessages| == n + 2
      && r.chatMessages[..n] == s.chatMessages
      && r.chatMessages[n] == Message(n + 1, "user", s.inputText, now)
      && r.chatMessages[n + 1] == Message(n + 2, "ai", GenerateAiResponse(s.selectedCategory, pick), replyAt)
      && r.inputText == "" && r.selectedCategory == s.selectedCategory
  {
    if Text.IsBlank(s.inputText) then s
    else
      var n := |s.chatMessages|;
      var userMessage := Message(n + 1, "user", s.inputText, now);
      var aiMessage := Message(n + 2, "ai", GenerateAiResponse(s.selectedCategory, pick), replyAt);
      s.(chatMessages := s.chatMessages + [userMessage, aiMessage], inputText := "")
  }

  /** `handleCategorySelect` at `now`, followed by its reply at `replyAt`: the
      category is selected, 'I need help with ' and the lower-cased label is
      sent as a 'user' message, and the category's reply follows. */
  function HandleCategorySelect(s: AssistantState, category: Category, now: int, replyAt: int, pick: nat): (r: AssistantState)
    requires pick < 2
    ensures var n := |s.chatMessages|;
      && |r.chatMessages| == n + 2
      && r.chatMessages[..n] == s.chatMessages
      && r.chatMessages[n] == Message(n + 1, "user", "I need help with " + Text.ToLower(category.caption), now)
      && r.chatMessages[n + 1] == Message(n + 2, "ai", GenerateAiResponse(Some(category), pick), replyAt)
      && r.inputText == s.inputText && r.selectedCategory == Some(category)
  {
    var n := |s.chatMessages|;
    var userMessage := Message(n + 1, "user", "I need help with " + Text.ToLower(category.caption), now);
    var aiMessage := Message(n + 2, "ai", GenerateAiResponse(Some(category), pick), replyAt);
    s.(chatMessages := s.chatMessages + [userMessage, aiMessage], selectedCategory := Some(category))
  }

  /** Starting from the greeting, both handlers keep the messages numbered,
      so every message has its own id. */
  lemma HandlersKeepNumbered(s: AssistantState, category: Category, now: int, replyAt: int, pick: nat)
    requires pick < 2 && Numbered(s.chatMessages)
    ensures Numbered(Initial(now).chatMessages)
    ensures Numbered(HandleSendMessage(s, now, replyAt, pick).chatMessages)
    ensures Numbered(HandleCategorySelect(s, category, now, replyAt, pick).chatMessages)
  {
    var n := |s.chatMessages|;
    if !Text.IsBlank(s.inputText) {
      var r := HandleSendMessage(s, now, replyAt, pick).chatMessages;
      assert r == s.chatMessages + [r[n], r[n + 1]];
      AppendPairKeepsNumbered(s.chatMessages, r[n], r[n + 1]);
    }
    var r := HandleCategorySelect(s, category, now, replyAt, pick).chatMessages;
    assert r == s.chatMessages + [r[n], r[n + 1]];
    AppendPairKeepsNumbered(s.chatMessages, r[n], r[n + 1]);
  }

  /** Two messages numbered on from the list keep it numbered. */
  lemma AppendPairKeepsNumbered(messages: seq<Message>, a: Message, b: Message)
    requires Numbered(messages) && a.id == |messages| + 1 && b.id == |messages| + 2
    ensures Numbered(messages + [a, b])
  {
  }

  /** A shortcut sends 'I need help with ' followed by the category label with
      every upper-case letter lowered, so 'Safety Tips' asks about 'safety tips'. */
  lemma CategoryMessageInLowerCase(s: AssistantState, category: Category, now: int, replyAt: int, pick: nat)
    requires pick < 2
    ensures var text := HandleCategorySelect(s, category, now, replyAt, pick).chatMessages[|s.chatMessages|].message;
      && |text| == 17 + |category.caption|
      && text[..17] == "I need help with "
      && forall k :: 17 <= k < |text| ==> !('A' <= text[k] <= 'Z')
  {
    var lowered := Text.ToLower(category.caption);
    Text.ToLowerHasNoUpper(category.caption);
    var text := "I need help with " + lowered;
    assert text[..17] == "I need help with ";
    assert forall k :: 17 <= k < |text| ==> text[k] == lowered[k - 17];
  }
}
