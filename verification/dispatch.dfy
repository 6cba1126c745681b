/** What the bot does, as values: the outbound calls and the new user table
    produced by one inbound event or by one run of the announcement job.
    The class in module Service is proved to behave exactly like these
    functions; module Properties states what they promise. */
module Dispatch {
  import opened Wrappers
  import opened JavaLang
  import opened Model

  // ---------------------------------------------------------------- user table

  /** `existsById`: some row of the table has this chat id. */
  predicate ExistsById(users: seq<User>, chatId: int)
  {
    exists i :: 0 <= i < |users| && users[i].chatId == chatId
  }

  /** The primary-key constraint of the user table: no chat id appears twice. */
  predicate UniqueIds(users: seq<User>)
  {
    forall i, j :: 0 <= i < j < |users| ==> users[i].chatId != users[j].chatId
  }

  /** The table seen as a map from chat id to row (later rows win, which with
      unique ids never matters). */
  function Store(users: seq<User>): map<int, User>
  {
    if users == [] then map[]
    else Store(users[..|users| - 1])[users[|users| - 1].chatId := users[|users| - 1]]
  }

  /** The row `registerUser` builds from a message: the sender's profile and
      the wall-clock time `now`. */
  function NewUser(msg: Message, now: int): User
  {
    User(msg.chatId, msg.chat.firstName, msg.chat.lastName, msg.chat.userName, now)
  }

  /** The table after `registerUser`: the row is saved only when its chat id is
      not yet present; new rows come last in `findAll` order. */
  function RegisterUser(users: seq<User>, msg: Message, now: int): seq<User>
  {
    if ExistsById(users, msg.chatId) then users else users + [NewUser(msg, now)]
  }

  // ---------------------------------------------------------------- builders

  /** `prepareAndSendMessage`: plain text, no keyboard. */
  function PlainMessage(chatId: int, text: string): Action
  {
    Send(chatId, text, NoMarkup)
  }

  /** `sendMessage`: text with the two-row reply keyboard. */
  function KeyboardMessage(chatId: int, text: string): Action
  {
    Send(chatId, text, ReplyKeyboard(MAIN_KEYBOARD))
  }

  /** `register`: the confirmation prompt with one inline row, Yes then No. */
  function RegisterPrompt(chatId: int): Action
  {
    Send(chatId, REGISTER_PROMPT,
         InlineKeyboard([[InlineButton("Yes", YES_BUTTON), InlineButton("No", NO_BUTTON)]]))
  }

  /** `executeEditMessageText`: replace the text of message `msgId` in `chatId`. */
  function EditMessage(text: string, chatId: int, msgId: int): Action
  {
    Edit(chatId, msgId, text)
  }

  /** The welcome template of `startCommandReceived`, before emoji expansion. */
  function WelcomeTemplate(firstName: string): string
  {
    "Hi, " + firstName + ", nice to meet you!" + ":heart_eyes:"
  }

  // ---------------------------------------------------------------- fan-out

  /** The texts of the announcements `sendAds` gets through: those before the
      first one without a text (the column is nullable). */
  function AdTexts(ads: seq<Ad>): (texts: seq<string>)
    ensures |texts| <= |ads|
    ensures |texts| < |ads| ==> ads[|texts|].adText.None?
  {
    if ads == [] || ads[0].adText.None? then []
    else [ads[0].adText.value] + AdTexts(ads[1..])
  }

  /** Text i of the run is the text of announcement i. */
  lemma {:induction false} AdTextsAt(ads: seq<Ad>, i: int)
    requires 0 <= i < |AdTexts(ads)|
    ensures ads[i].adText == Some(AdTexts(ads)[i])
  {
    if i > 0 {
      AdTextsAt(ads[1..], i - 1);
    }
  }

  /** One plain send of `text` to each user, in table order. */
  function SendsTo(users: seq<User>, text: string): seq<Action>
  {
    if users == [] then []
    else SendsTo(users[..|users| - 1], text) + [PlainMessage(users[|users| - 1].chatId, text)]
  }

  /** `sendAds` over announcement texts: for each text in order, one send of
      it to each user. */
  function FanOut(texts: seq<string>, users: seq<User>): seq<Action>
  {
    if texts == [] then []
    else FanOut(texts[..|texts| - 1], users) + SendsTo(users, texts[|texts| - 1])
  }

  /** Concatenation regroups freely. */
  lemma AppendAssoc<T>(a: seq<T>, b: seq<T>, c: seq<T>)
    ensures (a + b) + c == a + (b + c)
  {
  }

  /** One more text extends the run by one send of it to each user. */
  lemma FanOutStep(texts: seq<string>, users: seq<User>, i: int)
    requires 0 <= i < |texts|
    ensures FanOut(texts[..i + 1], users) == FanOut(texts[..i], users) + SendsTo(users, texts[i])
  {
    assert texts[..i + 1][..i] == texts[..i];
  }

  /** With no users the job sends nothing, whatever the announcements. */
  lemma {:induction false} FanOutNoUsers(texts: seq<string>)
    ensures FanOut(texts, []) == []
  {
    if texts != [] {
      FanOutNoUsers(texts[..|texts| - 1]);
    }
  }

  // ---------------------------------------------------------------- dispatch

  /** The user table after an event and the calls the event made, in order. */
  datatype Effect = Effect(users: seq<User>, sent: seq<Action>)

  /** The payload of an owner broadcast: `text.substring(text.indexOf(" "))`,
      the text from its first space on; throws when there is no space. */
  function BroadcastPayload(text: string): (r: Result<string, Exception>)
    ensures r.Ok? <==> ' ' in text
    ensures r.Ok? ==> 0 < |r.value| <= |text| && r.value[0] == ' '
                      && text == text[..|text| - |r.value|] + r.value
                      && ' ' !in text[..|text| - |r.value|]
    ensures r.Err? ==> r.error == StringIndexOutOfBounds(-1)
  {
    Substring(text, IndexOf(text, ' '))
  }

  /** The exact-match `switch` on the message text. */
  function OnCommand(users: seq<User>, parseToUnicode: string -> string,
                     msg: Message, text: string, now: int): Effect
  {
    if text == "/start" then
      Effect(RegisterUser(users, msg, now),
             [KeyboardMessage(msg.chatId, parseToUnicode(WelcomeTemplate(msg.chat.firstName)))])
    else if text == "/help" then
      Effect(users, [PlainMessage(msg.chatId, HELP_TEXT)])
    else if text == "/register" then
      Effect(users, [RegisterPrompt(msg.chatId)])
    else
      Effect(users, [PlainMessage(msg.chatId, NOT_RECOGNIZED)])
  }

  /** A text message: the owner's broadcast first, then the command switch. */
  function OnText(users: seq<User>, ownerId: int, parseToUnicode: string -> string,
                  msg: Message, text: string, now: int): Result<Effect, Exception>
  {
    if Contains(text, SEND_TRIGGER) && ownerId == msg.chatId then
      match BroadcastPayload(text)
      case Err(e) => Err(e)
      case Ok(payload) => Ok(Effect(users, SendsTo(users, parseToUnicode(payload))))
    else
      Ok(OnCommand(users, parseToUnicode, msg, text, now))
  }

  /** A button press: the Yes and No tokens edit the prompt message, any other
      token does nothing. Comparing absent data, or reading the chat of an
      absent message, throws. */
  function OnCallback(q: CallbackQuery): Result<seq<Action>, Exception>
  {
    if q.data.None? then Err(NullPointer)
    else if q.data.value == YES_BUTTON || q.data.value == NO_BUTTON then
      if q.message.None? then Err(NullPointer)
      else
        var text := if q.data.value == YES_BUTTON then YES_PRESSED else NO_PRESSED;
        Ok([EditMessage(text, q.message.value.chatId, q.message.value.messageId)])
    else Ok([])
  }

  /** `hasMessage() && getMessage().hasText()`: a message with a non-empty text. */
  predicate HasText(u: Update)
  {
    u.message.Some? && u.message.value.text.Some? && u.message.value.text.value != ""
  }

  /** `onUpdateReceived`: route one event. When it throws, nothing was sent and
      the table is unchanged. */
  function OnUpdate(users: seq<User>, ownerId: int, parseToUnicode: string -> string,
                    u: Update, now: int): Result<Effect, Exception>
  {
    if HasText(u) then
      OnText(users, ownerId, parseToUnicode, u.message.value, u.message.value.text.value, now)
    else if u.callbackQuery.Some? then
      match OnCallback(u.callbackQuery.value)
      case Err(e) => Err(e)
      case Ok(sent) => Ok(Effect(users, sent))
    else
      Ok(Effect(users, []))
  }
}
