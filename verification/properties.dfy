/** What the dispatcher and the announcement job promise, stated over the
    functions of module Dispatch (which the bot's methods are proved to follow). */
module Properties {
  import opened Wrappers
  import opened JavaLang
  import opened Model
  import opened Dispatch

  // ---------------------------------------------------------------- user table

  /** The map view has exactly the chat ids present in the table. */
  lemma {:induction false} StoreKeys(users: seq<User>)
    ensures forall id :: id in Store(users) <==> ExistsById(users, id)
  {
    if users != [] {
      var init := users[..|users| - 1];
      StoreKeys(init);
      forall id ensures ExistsById(users, id) <==> ExistsById(init, id) || id == users[|users| - 1].chatId {
        if ExistsById(init, id) {
          var i :| 0 <= i < |init| && init[i].chatId == id;
          assert users[i].chatId == id;
        }
      }
    }
  }

  /** With unique ids, every row is what the map view holds for its chat id. */
  lemma {:induction false} StoreLookup(users: seq<User>)
    requires UniqueIds(users)
    ensures forall i :: 0 <= i < |users| ==>
              users[i].chatId in Store(users) && Store(users)[users[i].chatId] == users[i]
  {
    if users != [] {
      var init := users[..|users| - 1];
      StoreLookup(init);
    }
  }

  /** Registering a sender whose chat id is new inserts exactly one row, keyed
      by that id, built from the sender's profile and `now`; a known chat id
      leaves the table as it is. Either way the primary key stays unique. */
  lemma RegisterUserEffect(users: seq<User>, msg: Message, now: int)
    requires UniqueIds(users)
    ensures var after := RegisterUser(users, msg, now);
            UniqueIds(after)
            && ExistsById(after, msg.chatId)
            && (ExistsById(users, msg.chatId) ==> after == users)
            && (!ExistsById(users, msg.chatId) ==>
                  msg.chatId !in Store(users)
                  && Store(after) == Store(users)[msg.chatId := NewUser(msg, now)]
                  && |Store(after)| == |Store(users)| + 1)
  {
    var after := RegisterUser(users, msg, now);
    StoreKeys(users);
    if !ExistsById(users, msg.chatId) {
      assert after[|after| - 1].chatId == msg.chatId;
      assert after[..|after| - 1] == users;
    } else {
      var i :| 0 <= i < |users| && users[i].chatId == msg.chatId;
    }
  }

  // ---------------------------------------------------------------- fan-out

  /** One send per user, in table order, each of `text` to that user's chat. */
  lemma {:induction false} SendsToShape(users: seq<User>, text: string)
    ensures |SendsTo(users, text)| == |users|
    ensures forall k :: 0 <= k < |users| ==>
              SendsTo(users, text)[k] == Send(users[k].chatId, text, NoMarkup)
  {
    if users != [] {
      SendsToShape(users[..|users| - 1], text);
    }
  }

  /** `sendAds` with N announcement texts and M users makes N * M sends. */
  lemma {:induction false} FanOutLength(texts: seq<string>, users: seq<User>)
    ensures |FanOut(texts, users)| == |texts| * |users|
  {
    if texts != [] {
      var n := |texts| - 1;
      FanOutLength(texts[..n], users);
      SendsToShape(users, texts[n]);
      assert |texts| * |users| == n * |users| + |users|;
    }
  }

  /** The send of text i to user j sits at position i * M + j. */
  lemma {:induction false} FanOutAt(texts: seq<string>, users: seq<User>, i: int, j: int)
    requires 0 <= i < |texts| && 0 <= j < |users|
    ensures i * |users| + j < |FanOut(texts, users)|
    ensures FanOut(texts, users)[i * |users| + j] == Send(users[j].chatId, texts[i], NoMarkup)
  {
    var n, m := |texts| - 1, |users|;
    FanOutLength(texts, users);
    FanOutLength(texts[..n], users);
    SendsToShape(users, texts[n]);
    MulAtLeast(n - i + 1, m);
    assert (n - i + 1) * m == |texts| * m - i * m;
    if i < n {
      MulAtLeast(n - i, m);
      assert (n - i) * m == n * m - i * m;
      FanOutAt(texts[..n], users, i, j);
    } else {
      assert i * m + j - n * m == j;
    }
  }

  /** Send k of `sendAds` goes to user k % M with text k / M. */
  lemma FanOutAtIndex(texts: seq<string>, users: seq<User>, k: int)
    requires 0 <= k < |texts| * |users|
    ensures 0 < |users| && k / |users| < |texts| && k < |FanOut(texts, users)|
    ensures FanOut(texts, users)[k]
              == Send(users[k % |users|].chatId, texts[k / |users|], NoMarkup)
  {
    var m := |users|;
    assert m != 0;
    var q, r := k / m, k % m;
    assert k == q * m + r && 0 <= r < m;
    assert (|texts| - q) * m == |texts| * m - q * m;
    MulSign(|texts| - q, m);
    FanOutAt(texts, users, q, r);
  }

  /** A positive multiple of m is at least m. */
  lemma {:induction false} MulAtLeast(d: int, m: nat)
    requires d >= 1
    ensures d * m >= m
    decreases d
  {
    if d > 1 {
      MulAtLeast(d - 1, m);
      assert d * m == (d - 1) * m + m;
    }
  }

  /** The sign of a multiple of m follows the sign of the factor. */
  lemma MulSign(d: int, m: int)
    requires m >= 0
    ensures d >= 1 ==> d * m >= m
    ensures d == 0 ==> d * m == 0
    ensures d <= -1 ==> d * m <= -m
  {
    if d >= 1 {
      MulAtLeast(d, m);
    } else if d <= -1 {
      MulAtLeast(-d, m);
      assert d * m == -((-d) * m);
    }
  }

  /** Three users receive one text in table order. */
  lemma SendsToThree(x: User, y: User, z: User, text: string)
    ensures SendsTo([x, y, z], text)
              == [PlainMessage(x.chatId, text), PlainMessage(y.chatId, text), PlainMessage(z.chatId, text)]
  {
    assert [x][..0] == [];
    assert SendsTo([x], text) == [PlainMessage(x.chatId, text)];
    assert [x, y][..1] == [x];
    assert SendsTo([x, y], text) == SendsTo([x], text) + [PlainMessage(y.chatId, text)];
    assert [x, y, z][..2] == [x, y];
    assert SendsTo([x, y, z], text) == SendsTo([x, y], text) + [PlainMessage(z.chatId, text)];
  }

  /** Two announcement texts reach three users in six sends, the second
      text's after all of the first's. */
  lemma FanOutTwoByThree(s: string, t: string, x: User, y: User, z: User)
    ensures FanOut([s, t], [x, y, z]) ==
      [ PlainMessage(x.chatId, s), PlainMessage(y.chatId, s), PlainMessage(z.chatId, s),
        PlainMessage(x.chatId, t), PlainMessage(y.chatId, t), PlainMessage(z.chatId, t) ]
  {
    SendsToThree(x, y, z, s);
    SendsToThree(x, y, z, t);
    assert [s][..0] == [];
    assert FanOut([s], [x, y, z]) == SendsTo([x, y, z], s);
    assert [s, t][..1] == [s];
    assert FanOut([s, t], [x, y, z]) == FanOut([s], [x, y, z]) + SendsTo([x, y, z], t);
  }

  // ---------------------------------------------------------------- text routing

  /** The owner's text containing "/send" and a space goes to every user, in
      table order, as the emoji expansion of the text from its first space on;
      the table is not changed. */
  lemma OwnerBroadcast(users: seq<User>, ownerId: int, parseToUnicode: string -> string,
                       u: Update, msg: Message, text: string, now: int)
    requires u.message == Some(msg) && msg.text == Some(text)
    requires msg.chatId == ownerId && Contains(text, SEND_TRIGGER) && ' ' in text
    ensures var r := OnUpdate(users, ownerId, parseToUnicode, u, now);
            var payload := parseToUnicode(text[IndexOf(text, ' ')..]);
            r.Ok? && r.value.users == users && |r.value.sent| == |users|
            && forall i :: 0 <= i < |users| ==>
                 r.value.sent[i] == Send(users[i].chatId, payload, NoMarkup)
  {
    SendsToShape(users, parseToUnicode(text[IndexOf(text, ' ')..]));
  }

  /** The owner's text containing "/send" but no space throws
      (`substring(-1)`) before anything is sent. */
  lemma OwnerBroadcastWithoutSpace(users: seq<User>, ownerId: int, parseToUnicode: string -> string,
                                   u: Update, msg: Message, text: string, now: int)
    requires u.message == Some(msg) && msg.text == Some(text)
    requires msg.chatId == ownerId && Contains(text, SEND_TRIGGER) && ' ' !in text
    ensures OnUpdate(users, ownerId, parseToUnicode, u, now) == Err(StringIndexOutOfBounds(-1))
  {
  }

  /** The trigger counts anywhere in the text, not only at its start. */
  lemma TriggerInsideText()
    ensures Contains("hi /send x", SEND_TRIGGER)
    ensures BroadcastPayload("hi /send x") == Ok(" /send x")
  {
    assert OccursAt("hi /send x", SEND_TRIGGER, 3);
    ContainsIff("hi /send x", SEND_TRIGGER);
    assert "hi /send x"[2] == ' ' && "hi /send x"[..2] == "hi";
    assert IndexOf("hi /send x", ' ') == 2;
    assert "hi /send x"[2..] == " /send x";
  }

  /** "/start" does not contain the broadcast trigger, so the owner's "/start"
      is routed like anybody else's. */
  lemma StartIsNotTrigger()
    ensures !Contains("/start", SEND_TRIGGER)
  {
    assert "/start"[..5][2] != SEND_TRIGGER[2];
    assert "/start"[1..] == "start" && "start"[..5][0] != SEND_TRIGGER[0];
    assert "start"[1..] == "tart";
  }

  /** "/help" does not contain the broadcast trigger. */
  lemma HelpIsNotTrigger()
    ensures !Contains("/help", SEND_TRIGGER)
  {
    assert "/help"[..5][1] != SEND_TRIGGER[1];
    assert "/help"[1..] == "help";
  }

  /** "/register" does not contain the broadcast trigger. */
  lemma RegisterIsNotTrigger()
    ensures !Contains("/register", SEND_TRIGGER)
  {
    assert "/register"[..5][1] != SEND_TRIGGER[1];
    assert "/register"[1..] == "register" && "register"[..5][0] != SEND_TRIGGER[0];
    assert "register"[1..] == "egister" && "egister"[..5][0] != SEND_TRIGGER[0];
    assert "egister"[1..] == "gister" && "gister"[..5][0] != SEND_TRIGGER[0];
    assert "gister"[1..] == "ister" && "ister"[..5][0] != SEND_TRIGGER[0];
    assert "ister"[1..] == "ster";
  }

  /** `/start` from a chat id not yet stored inserts exactly one row for it
      (profile fields and `now`) and sends one welcome reply with the reply
      keyboard; from a stored chat id it sends the same reply and changes nothing. */
  lemma StartCommand(users: seq<User>, ownerId: int, parseToUnicode: string -> string,
                     u: Update, msg: Message, now: int)
    requires UniqueIds(users)
    requires u.message == Some(msg) && msg.text == Some("/start")
    ensures var r := OnUpdate(users, ownerId, parseToUnicode, u, now);
            var welcome := parseToUnicode("Hi, " + msg.chat.firstName + ", nice to meet you!" + ":heart_eyes:");
            r.Ok?
            && r.value.sent == [Send(msg.chatId, welcome, ReplyKeyboard(MAIN_KEYBOARD))]
            && UniqueIds(r.value.users)
            && (ExistsById(users, msg.chatId) ==> r.value.users == users)
            && (!ExistsById(users, msg.chatId) ==>
                  r.value.users == users + [User(msg.chatId, msg.chat.firstName, msg.chat.lastName,
                                                 msg.chat.userName, now)]
                  && msg.chatId !in Store(users)
                  && Store(r.value.users) == Store(users)[msg.chatId := NewUser(msg, now)])
  {
    StartIsNotTrigger();
    RegisterUserEffect(users, msg, now);
  }

  /** A second `/start` from the same chat, at any later time, leaves the
      table as the first one left it. */
  lemma StartIsIdempotent(users: seq<User>, ownerId: int, parseToUnicode: string -> string,
                          u: Update, u': Update, msg: Message, msg': Message, now: int, now': int)
    requires UniqueIds(users)
    requires u.message == Some(msg) && msg.text == Some("/start")
    requires u'.message == Some(msg') && msg'.text == Some("/start") && msg'.chatId == msg.chatId
    ensures var r := OnUpdate(users, ownerId, parseToUnicode, u, now);
            r.Ok? && var r' := OnUpdate(r.value.users, ownerId, parseToUnicode, u', now');
            r'.Ok? && r'.value.users == r.value.users
  {
    StartCommand(users, ownerId, parseToUnicode, u, msg, now);
    var r := OnUpdate(users, ownerId, parseToUnicode, u, now);
    RegisterUserEffect(users, msg, now);
    StartCommand(r.value.users, ownerId, parseToUnicode, u', msg', now');
  }

  /** `/help` answers the sender with the help text, whoever sends it. */
  lemma HelpCommand(users: seq<User>, ownerId: int, parseToUnicode: string -> string,
                    u: Update, msg: Message, now: int)
    requires u.message == Some(msg) && msg.text == Some("/help")
    ensures OnUpdate(users, ownerId, parseToUnicode, u, now)
              == Ok(Effect(users, [Send(msg.chatId, HELP_TEXT, NoMarkup)]))
  {
    HelpIsNotTrigger();
  }

  /** `/register` sends the confirmation prompt with one inline row of two
      buttons, "Yes" carrying YES_BUTTON then "No" carrying NO_BUTTON, and
      stores nothing. */
  lemma RegisterCommand(users: seq<User>, ownerId: int, parseToUnicode: string -> string,
                        u: Update, msg: Message, now: int)
    requires u.message == Some(msg) && msg.text == Some("/register")
    ensures var r := OnUpdate(users, ownerId, parseToUnicode, u, now);
            r == Ok(Effect(users, [Send(msg.chatId, "Do you really want to register?",
                                        InlineKeyboard([[InlineButton("Yes", YES_BUTTON),
                                                         InlineButton("No", NO_BUTTON)]]))]))
  {
    RegisterIsNotTrigger();
  }

  /** A message whose text is empty is not a text message (`hasText()` is
      false); without a button press it is ignored. */
  lemma EmptyTextIgnored(users: seq<User>, ownerId: int, parseToUnicode: string -> string,
                         u: Update, msg: Message, now: int)
    requires u.message == Some(msg) && msg.text == Some("") && u.callbackQuery.None?
    ensures OnUpdate(users, ownerId, parseToUnicode, u, now) == Ok(Effect(users, []))
  {
  }

  /** Any other text that is not the owner's broadcast gets the fixed
      "not recognized" reply and leaves the table alone; in particular a
      non-owner's "/send ..." falls through to this reply. */
  lemma UnrecognizedText(users: seq<User>, ownerId: int, parseToUnicode: string -> string,
                         u: Update, msg: Message, text: string, now: int)
    requires u.message == Some(msg) && msg.text == Some(text)
    requires text != "" && text != "/start" && text != "/help" && text != "/register"
    requires !(Contains(text, SEND_TRIGGER) && msg.chatId == ownerId)
    ensures OnUpdate(users, ownerId, parseToUnicode, u, now)
              == Ok(Effect(users, [Send(msg.chatId, "Sorry, command was not recognized", NoMarkup)]))
  {
  }

  // ---------------------------------------------------------------- callbacks

  /** A button press carrying YES_BUTTON or NO_BUTTON edits the pressed message
      in place to the matching confirmation; any other token makes no call,
      whether or not the press carries a message. The table never changes. */
  lemma ButtonPress(users: seq<User>, ownerId: int, parseToUnicode: string -> string,
                    u: Update, q: CallbackQuery, data: string, now: int)
    requires !HasText(u) && u.callbackQuery == Some(q)
    requires q.data == Some(data)
    ensures var r := OnUpdate(users, ownerId, parseToUnicode, u, now);
            (data != "YES_BUTTON" && data != "NO_BUTTON" ==> r == Ok(Effect(users, [])))
            && (q.message.Some? && data == "YES_BUTTON" ==>
                  r == Ok(Effect(users, [Edit(q.message.value.chatId, q.message.value.messageId,
                                              "You pressed Yes button!")])))
            && (q.message.Some? && data == "NO_BUTTON" ==>
                  r == Ok(Effect(users, [Edit(q.message.value.chatId, q.message.value.messageId,
                                              "You pressed No button!")])))
  {
  }

  /** A button press without callback data throws on `getData().equals(...)`,
      and a Yes or No press without a message throws on `getMessage().getChatId()`;
      in both cases nothing is sent. */
  lemma ButtonPressThrows(users: seq<User>, ownerId: int, parseToUnicode: string -> string,
                          u: Update, q: CallbackQuery, now: int)
    requires !HasText(u) && u.callbackQuery == Some(q)
    requires q.data.None?
             || ((q.data == Some(YES_BUTTON) || q.data == Some(NO_BUTTON)) && q.message.None?)
    ensures OnUpdate(users, ownerId, parseToUnicode, u, now) == Err(NullPointer)
  {
  }

  // ---------------------------------------------------------------- every event

  /** Whatever the event, the table keeps unique ids and changes at most by one
      new row, and only for `/start` from an unknown chat; every event that
      throws has made no call and changed nothing (the methods guarantee this). */
  lemma AtMostOneInsert(users: seq<User>, ownerId: int, parseToUnicode: string -> string,
                        u: Update, now: int)
    requires UniqueIds(users)
    ensures var r := OnUpdate(users, ownerId, parseToUnicode, u, now);
            r.Ok? ==> UniqueIds(r.value.users)
                      && (r.value.users == users
                          || (u.message.Some? && u.message.value.text == Some("/start")
                              && !ExistsById(users, u.message.value.chatId)
                              && r.value.users == users + [NewUser(u.message.value, now)]))
  {
    if HasText(u) {
      RegisterUserEffect(users, u.message.value, now);
    }
  }
}
