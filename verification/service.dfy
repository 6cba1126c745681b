/** The bot object: it owns the user table, reads the announcement table, and
    talks to the platform only by appending calls to its outbox. */
module Service {
  import opened Wrappers
  import opened JavaLang
  import opened Model
  import opened Dispatch

  class TelegramBot {
    /** The operator's chat id, from configuration. */
    const ownerId: int
    /** The emoji library's shortcode expansion, an input of the model. */
    const parseToUnicode: string -> string
    /** `userRepository`, in `findAll` order. */
    var users: seq<User>
    /** `adsRepository`, in `findAll` order; the bot only reads it. */
    var ads: seq<Ad>
    /** Every platform call made so far, oldest first. A call that fails is
        caught and logged, so it is recorded like any other. */
    var outbox: seq<Action>

    /** The user table keeps its primary-key constraint. */
    ghost predicate Valid()
      reads this
    {
      UniqueIds(users)
    }

    /** Wires the repositories and registers the command menu with the platform. */
    constructor (ownerId: int, parseToUnicode: string -> string, users: seq<User>, ads: seq<Ad>)
      requires UniqueIds(users)
      ensures Valid()
      ensures this.ownerId == ownerId && this.parseToUnicode == parseToUnicode
      ensures this.users == users && this.ads == ads
      ensures outbox == [SetMyCommands(MENU_COMMANDS)]
    {
      this.ownerId := ownerId;
      this.parseToUnicode := parseToUnicode;
      this.users := users;
      this.ads := ads;
      outbox := [SetMyCommands(MENU_COMMANDS)];
    }

    /** Routes one inbound event. The table and the outbox end exactly as
        `OnUpdate` says; when the routing throws, neither has changed. */
    method OnUpdateReceived(u: Update, now: int) returns (r: Outcome<Exception>)
      requires Valid()
      modifies this`users, this`outbox
      ensures Valid()
      ensures match OnUpdate(old(users), ownerId, parseToUnicode, u, now)
              case Ok(e) => r == Pass && users == e.users && outbox == old(outbox) + e.sent
              case Err(x) => r == Fail(x) && users == old(users) && outbox == old(outbox)
    {
      r := Pass;
      if HasText(u) {
        var msg := u.message.value;
        var text := msg.text.value;
        if Contains(text, SEND_TRIGGER) && ownerId == msg.chatId {
          var payload := Substring(text, IndexOf(text, ' '));
          if payload.Err? {
            r := Fail(payload.error);
            return;
          }
          var textToSend := parseToUnicode(payload.value);
          var all := users;
          for i := 0 to |all|
            invariant users == all
            invariant outbox == old(outbox) + SendsTo(all[..i], textToSend)
          {
            PrepareAndSendMessage(all[i].chatId, textToSend);
            assert all[..i + 1][..i] == all[..i];
          }
          assert all[..|all|] == all;
        } else if text == "/start" {
          RegisterUser(msg, now);
          StartCommandReceived(msg);
        } else if text == "/help" {
          PrepareAndSendMessage(msg.chatId, HELP_TEXT);
        } else if text == "/register" {
          Register(msg.chatId);
        } else {
          PrepareAndSendMessage(msg.chatId, NOT_RECOGNIZED);
        }
      } else if u.callbackQuery.Some? {
        var q := u.callbackQuery.value;
        if q.data.None? {
          r := Fail(NullPointer);
        } else if q.data.value == YES_BUTTON {
          if q.message.None? {
            r := Fail(NullPointer);
          } else {
            ExecuteEditMessageText(YES_PRESSED, q.message.value.chatId, q.message.value.messageId);
          }
        } else if q.data.value == NO_BUTTON {
          if q.message.None? {
            r := Fail(NullPointer);
          } else {
            ExecuteEditMessageText(NO_PRESSED, q.message.value.chatId, q.message.value.messageId);
          }
        }
      }
    }

    /** Edits the text of an earlier message. */
    method ExecuteEditMessageText(text: string, chatId: int, msgId: int)
      modifies this`outbox
      ensures outbox == old(outbox) + [Edit(chatId, msgId, text)]
    {
      outbox := outbox + [EditMessage(text, chatId, msgId)];
    }

    /** Sends the Yes/No confirmation prompt; persists nothing. */
    method Register(chatId: int)
      modifies this`outbox
      ensures outbox == old(outbox) + [RegisterPrompt(chatId)]
    {
      ExecuteMessage(RegisterPrompt(chatId));
    }

    /** Saves a row for the sender unless the chat id is already present. */
    method RegisterUser(msg: Message, now: int)
      requires Valid()
      modifies this`users
      ensures Valid()
      ensures old(ExistsById(users, msg.chatId)) ==> users == old(users)
      ensures !old(ExistsById(users, msg.chatId)) ==> users == old(users) + [NewUser(msg, now)]
    {
      if !ExistsById(users, msg.chatId) {
        users := users + [NewUser(msg, now)];
      }
    }

    /** Greets the sender by first name, with the reply keyboard. */
    method StartCommandReceived(msg: Message)
      modifies this`outbox
      ensures outbox == old(outbox)
                        + [KeyboardMessage(msg.chatId, parseToUnicode(WelcomeTemplate(msg.chat.firstName)))]
    {
      var answer := parseToUnicode(WelcomeTemplate(msg.chat.firstName));
      SendMessage(msg.chatId, answer);
    }

    /** Sends text with the two-row reply keyboard. */
    method SendMessage(chatId: int, text: string)
      modifies this`outbox
      ensures outbox == old(outbox) + [Send(chatId, text, ReplyKeyboard(MAIN_KEYBOARD))]
    {
      ExecuteMessage(KeyboardMessage(chatId, text));
    }

    /** Sends plain text. */
    method PrepareAndSendMessage(chatId: int, text: string)
      modifies this`outbox
      ensures outbox == old(outbox) + [Send(chatId, text, NoMarkup)]
    {
      ExecuteMessage(PlainMessage(chatId, text));
    }

    /** Hands one message to the platform; a failure is logged and swallowed,
        so the attempt is recorded and control goes on. */
    method ExecuteMessage(sm: Action)
      modifies this`outbox
      ensures outbox == old(outbox) + [sm]
    {
      outbox := outbox + [sm];
    }

    /** The scheduled job: every announcement to every user, announcements in
        the outer loop. Building a message with a null text throws, which ends
        the run at the first announcement without a text (if there is a user
        to send it to). The tables are not changed. */
    method SendAds() returns (r: Outcome<Exception>)
      modifies this`outbox
      ensures users == old(users) && ads == old(ads)
      ensures outbox == old(outbox) + FanOut(AdTexts(ads), users)
      ensures r == if |AdTexts(ads)| < |ads| && users != [] then Fail(NullPointer) else Pass
    {
      var allAds := ads;
      var allUsers := users;
      ghost var texts := AdTexts(allAds);
      ghost var done, sent := 0, [];  // the texts sent so far, and their sends
      for i := 0 to |allAds|
        invariant allUsers != [] ==> i <= |texts|
        invariant done == if i < |texts| then i else |texts|
        invariant sent == FanOut(texts[..done], allUsers)
        invariant outbox == old(outbox) + sent
      {
        if i < |texts| {
          AdTextsAt(allAds, i);
        }
        ghost var before := outbox;
        r := SendAdToAll(allAds[i], allUsers);
        if r.Fail? {
          // announcement i is the first without a text
          assert done == |texts| && texts[..done] == texts;
          return;
        }
        if i < |texts| {
          FanOutStep(texts, allUsers, i);
          AppendAssoc(old(outbox), sent, SendsTo(allUsers, texts[i]));
          done, sent := i + 1, sent + SendsTo(allUsers, texts[i]);
        } else {
          assert outbox == before;
        }
      }
      r := Pass;
      assert texts[..|texts|] == texts;
    }

    /** The inner loop of the job: one announcement to each user in turn. A
        null text throws at the first send (when there is one). */
    method SendAdToAll(ad: Ad, recipients: seq<User>) returns (r: Outcome<Exception>)
      modifies this`outbox
      ensures r.Fail? <==> ad.adText.None? && recipients != []
      ensures r.Fail? ==> r.error == NullPointer
      ensures ad.adText.None? ==> outbox == old(outbox)
      ensures ad.adText.Some? ==> outbox == old(outbox) + SendsTo(recipients, ad.adText.value)
    {
      for j := 0 to |recipients|
        invariant ad.adText.None? ==> j == 0 && outbox == old(outbox)
        invariant ad.adText.Some? ==> outbox == old(outbox) + SendsTo(recipients[..j], ad.adText.value)
      {
        if ad.adText.None? {
          // the message builder rejects the null text before the platform call
          return Fail(NullPointer);
        }
        PrepareAndSendMessage(recipients[j].chatId, ad.adText.value);
        assert recipients[..j + 1][..j] == recipients[..j];
      }
      assert recipients[..|recipients|] == recipients;
      r := Pass;
    }
  }
}
