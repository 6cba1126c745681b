# Telegram bot dispatcher and announcement job, in Dafny

This project models the core of a Spring Boot Telegram bot: the
`TelegramBot` service that routes each inbound platform update and the
scheduled job that sends every stored announcement to every stored user.

- `wrappers.dfy` (module `Wrappers`): `Option` for nullable references,
  `Result` and `Outcome` for code that may throw.
- `java_lang.dfy` (module `JavaLang`): the `String` operations the
  dispatcher uses (`contains`, `indexOf`, `substring`) with the exceptions
  they throw.
- `model.dfy` (module `Model`): the user and announcement rows, the inbound
  update (text message or button press), the outbound platform calls
  (`SetMyCommands`, `Send` with its keyboard, `Edit`) and the fixed texts and
  button tokens.
- `dispatch.dfy` (module `Dispatch`): the behaviour as values. `OnUpdate`
  gives, for a user table and one update, the new table and the calls made, or
  the exception thrown; `FanOut` gives the calls of one announcement run over
  the texts it gets through (`AdTexts`).
  The message and keyboard builders live here too.
- `service.dfy` (module `Service`): class `TelegramBot` with the user table
  (`users`, in `findAll` order), the announcement table (`ads`) and an
  `outbox` of every platform call made. Its methods follow the Java methods
  one for one: `OnUpdateReceived` loops over the users for the owner's
  broadcast, `SendAds` is the outer loop over the announcements and
  `SendAdToAll` its inner loop over the users. Each method is proved to leave the
  table and the outbox exactly as the functions of `Dispatch` say.
- `properties.dfy` (module `Properties`): what those functions promise.

The platform call `execute` is an append to the outbox. Its failures are
caught and logged at every call site, so a failing `execute` changes neither
the control flow nor any state; the outbox therefore lists every attempted
call. Exceptions thrown before `execute` is reached (a null text given to the
message builder, a null callback field) are not caught and end the method.
The emoji library and the wall clock are inputs: `parseToUnicode` is a
`string -> string` value fixed when the bot is built, and the current time is a
parameter of `OnUpdateReceived`. The owner id is a constructor argument.

Behaviour of the code a reader might not expect, which the model follows:

- The broadcast trigger is "/send" occurring anywhere in the text, not only
  as a prefix (`String.contains`).
- The broadcast payload starts at the first space and includes that space
  (`substring(indexOf(" "))`), and only the space character counts, not other
  whitespace.
- An owner text containing "/send" but no space makes `substring(-1)` throw
  `StringIndexOutOfBoundsException`; nothing is sent and the table is unchanged.
- A button press whose callback data is absent throws a `NullPointerException`
  on `getData().equals(...)`; so does a Yes/No press whose message is absent.
- Pressing Yes never stores a user; only `/start` does.
- A message whose text is empty fails `hasText()` and is treated like an
  update without a message: with no callback it is ignored.
- An announcement's text is nullable. The message builder throws a
  `NullPointerException` on a null text, so the announcement job ends at the
  first announcement without a text, after sending the earlier ones to every
  user; with no users nothing is built and the job runs to the end.

## Model

| member | source | states |
|---|---|---|
| `Service.TelegramBot.constructor` | src/main/java/com/mrlang/springboottelegrambot/service/TelegramBot.java:60-78 | The bot starts with the given tables and owner, its only call so far being the registration of the five-entry command menu. |
| `Service.TelegramBot.OnUpdateReceived` | src/main/java/com/mrlang/springboottelegrambot/service/TelegramBot.java:81-123 | Routing one update leaves the table and the outbox exactly as `OnUpdate` says and keeps chat ids unique; when routing throws, the exception is returned and nothing was sent or stored. |
| `Service.TelegramBot.ExecuteEditMessageText` | src/main/java/com/mrlang/springboottelegrambot/service/TelegramBot.java:125-137 | Exactly one edit of the given message in the given chat to the given text is appended. |
| `Service.TelegramBot.Register` | src/main/java/com/mrlang/springboottelegrambot/service/TelegramBot.java:139-157 | Exactly one confirmation prompt is sent to the chat and the table is not touched. |
| `Service.TelegramBot.RegisterUser` | src/main/java/com/mrlang/springboottelegrambot/service/TelegramBot.java:159-172 | A new chat id gets exactly one new row built from the profile and the time; a known chat id leaves the table unchanged; ids stay unique. |
| `Service.TelegramBot.StartCommandReceived` | src/main/java/com/mrlang/springboottelegrambot/service/TelegramBot.java:174-181 | Exactly one send to the sender: the emoji expansion of the greeting with the first name, with the reply keyboard. |
| `Service.TelegramBot.SendMessage` | src/main/java/com/mrlang/springboottelegrambot/service/TelegramBot.java:182-205 | Exactly one send of the text with the two-row reply keyboard. |
| `Service.TelegramBot.PrepareAndSendMessage` | src/main/java/com/mrlang/springboottelegrambot/service/TelegramBot.java:207-214 | Exactly one send of the text with no keyboard. |
| `Service.TelegramBot.ExecuteMessage` | src/main/java/com/mrlang/springboottelegrambot/service/TelegramBot.java:221-227 | The message is recorded as attempted whatever the platform answers, and nothing else changes. |
| `Service.TelegramBot.SendAds` | src/main/java/com/mrlang/springboottelegrambot/service/TelegramBot.java:229-242 | The job appends exactly the `FanOut` of `AdTexts`, the texts before the first announcement without one, over all users, and changes neither table; it ends with a null-pointer exception exactly when such an announcement exists and there is a user. |
| `Service.TelegramBot.SendAdToAll` | src/main/java/com/mrlang/springboottelegrambot/service/TelegramBot.java:207-214 | One announcement goes to each user in order; a null text throws at the first send, so nothing is sent, and with no users nothing is built. |
| `Dispatch.AdTexts` | src/main/java/com/mrlang/springboottelegrambot/service/TelegramBot.java:234-240 | The texts the job gets through are at most as many as the announcements, and the announcement right after the last of them has no text (the column is nullable, src/main/java/com/mrlang/springboottelegrambot/model/Ads.java:14-15). |
| `Dispatch.AdTextsAt` | src/main/java/com/mrlang/springboottelegrambot/service/TelegramBot.java:234-240 | Text i of the run is the text of announcement i. |
| `JavaLang.ContainsIff` | src/main/java/com/mrlang/springboottelegrambot/service/TelegramBot.java:85 | `contains` holds exactly when the trigger occurs at some position of the text. |
| `JavaLang.IndexOf` | src/main/java/com/mrlang/springboottelegrambot/service/TelegramBot.java:87 | The result is -1 exactly when the character is absent, and otherwise the position of its first occurrence. |
| `JavaLang.Substring` | src/main/java/com/mrlang/springboottelegrambot/service/TelegramBot.java:87 | It succeeds exactly for a begin index within the text, returning the suffix that completes the text; otherwise it throws with that index. |
| `Dispatch.BroadcastPayload` | src/main/java/com/mrlang/springboottelegrambot/service/TelegramBot.java:87 | It succeeds exactly when the text holds a space; the payload starts with the first space and is the rest of the text; with no space it throws at index -1. |
| `Properties.StoreKeys` | src/main/java/com/mrlang/springboottelegrambot/service/TelegramBot.java:160 | A chat id is a key of the table's map view exactly when `existsById` finds it. |
| `Properties.StoreLookup` | src/main/java/com/mrlang/springboottelegrambot/model/User.java:15-16 | With chat id as the primary key, the map view returns each row for its own chat id. |
| `Properties.RegisterUserEffect` | src/main/java/com/mrlang/springboottelegrambot/service/TelegramBot.java:159-172 | For a new chat id the map view gains exactly one entry, that id mapped to the new row; for a known one the table is unchanged; afterwards the id is present and ids are unique. |
| `Properties.SendsToShape` | src/main/java/com/mrlang/springboottelegrambot/service/TelegramBot.java:88-90 | The broadcast loop makes one send per user, send i going to user i with the same text. |
| `Properties.FanOutLength` | src/main/java/com/mrlang/springboottelegrambot/service/TelegramBot.java:229-242 | N announcement texts and M users give exactly N times M sends. |
| `Properties.FanOutAt` | src/main/java/com/mrlang/springboottelegrambot/service/TelegramBot.java:234-240 | Text i reaches user j at position i * M + j. |
| `Properties.FanOutAtIndex` | src/main/java/com/mrlang/springboottelegrambot/service/TelegramBot.java:234-240 | Send k goes to user k % M and carries text k / M. |
| `Properties.SendsToThree` | src/main/java/com/mrlang/springboottelegrambot/service/TelegramBot.java:88-89 | Three stored users receive one text as three sends in table order. |
| `Properties.FanOutTwoByThree` | src/main/java/com/mrlang/springboottelegrambot/service/TelegramBot.java:234-240 | Two announcement texts and three users give the six sends in announcement-major order. |
| `Properties.OwnerBroadcast` | src/main/java/com/mrlang/springboottelegrambot/service/TelegramBot.java:85-90 | The owner's text containing "/send" and a space sends the expanded payload to every stored user in table order and stores nothing. |
| `Properties.OwnerBroadcastWithoutSpace` | src/main/java/com/mrlang/springboottelegrambot/service/TelegramBot.java:87 | The owner's text containing "/send" but no space throws at index -1. |
| `Properties.TriggerInsideText` | src/main/java/com/mrlang/springboottelegrambot/service/TelegramBot.java:85-87 | A text with "/send" in its middle is a trigger, and its payload starts at its first space. |
| `Properties.StartIsNotTrigger` | src/main/java/com/mrlang/springboottelegrambot/service/TelegramBot.java:85-96 | "/start" does not contain "/send", so the owner's "/start" reaches the command switch. |
| `Properties.HelpIsNotTrigger` | src/main/java/com/mrlang/springboottelegrambot/service/TelegramBot.java:85-99 | "/help" does not contain "/send", so the owner's "/help" reaches the command switch. |
| `Properties.RegisterIsNotTrigger` | src/main/java/com/mrlang/springboottelegrambot/service/TelegramBot.java:85-102 | "/register" does not contain "/send", so the owner's "/register" reaches the command switch. |
| `Properties.StartCommand` | src/main/java/com/mrlang/springboottelegrambot/service/TelegramBot.java:94-97 | "/start" sends one welcome reply with the reply keyboard; from a new chat id it inserts exactly that id's row, from a known one it changes nothing. |
| `Properties.StartIsIdempotent` | src/main/java/com/mrlang/springboottelegrambot/service/TelegramBot.java:159-172 | A second "/start" from the same chat leaves the table as the first left it. |
| `Properties.HelpCommand` | src/main/java/com/mrlang/springboottelegrambot/service/TelegramBot.java:98-99 | "/help" sends the help text to the sender, for any sender, and stores nothing. |
| `Properties.RegisterCommand` | src/main/java/com/mrlang/springboottelegrambot/service/TelegramBot.java:101-102 | "/register" sends exactly the prompt with one inline row, "Yes" carrying YES_BUTTON then "No" carrying NO_BUTTON, and stores nothing. |
| `Properties.UnrecognizedText` | src/main/java/com/mrlang/springboottelegrambot/service/TelegramBot.java:104-105 | Any other non-empty text that is not the owner's broadcast, including a non-owner's "/send", gets the "not recognized" reply and stores nothing. |
| `Properties.EmptyTextIgnored` | src/main/java/com/mrlang/springboottelegrambot/service/TelegramBot.java:82 | A message with empty text and no callback fails `hasText()`: no call is made and the table is unchanged. |
| `Properties.ButtonPress` | src/main/java/com/mrlang/springboottelegrambot/service/TelegramBot.java:108-122 | YES_BUTTON and NO_BUTTON edit the pressed message to their confirmation; any other token makes no call, with or without a message; the table never changes. |
| `Properties.ButtonPressThrows` | src/main/java/com/mrlang/springboottelegrambot/service/TelegramBot.java:111-119 | A press without callback data, or a Yes or No press without a message, throws a null-pointer exception and sends nothing. |
| `Properties.AtMostOneInsert` | src/main/java/com/mrlang/springboottelegrambot/service/TelegramBot.java:81-123 | Any update keeps ids unique and changes the table at most by one new row, only for "/start" from an unknown chat. |

## Left out

- The platform calls and their `TelegramApiException`s: every call is an
  outbox entry whether or not it would succeed, since the code catches and logs
  each failure and then carries on.
- The emoji library: `parseToUnicode` is an arbitrary function of the bot;
  no property depends on what it does to shortcodes.
- The wall clock and `Timestamp`: the time is a parameter in milliseconds.
- Spring wiring, `BotConfig` property loading, the cron expression of the
  scheduled job and `getBotUsername`: the owner id and the tables are
  constructor arguments and `SendAds` is simply a method that may be called.
- Logging and `User.toString`.
- Concurrency between the scheduler and the dispatcher: each update and each
  announcement run is one atomic step.
- The order of `findAll` is the order of the sequence, new rows coming last;
  the database may order differently.
- A `save` rejected by the database is not modelled; the existence check
  before it makes a duplicate impossible in a sequential run.
- `Service.TelegramBot.StartCommandReceived`: the first name is a non-null
  string, so the Java output "Hi, null, ..." for a missing name is not covered.
- A callback whose message is an inaccessible message (the cast to
  `Message` failing) is not modelled; the message is either present or absent.
- The announcement and user tables are never changed by any other path; the
  "delete my data" and administrative paths are not part of this model.
- Java strings are UTF-16; here a string is a sequence of Unicode code points,
  so `indexOf` positions differ for text with characters outside the Basic
  Multilingual Plane (emoji, for one). The suffix that
  `substring(indexOf(" "))` returns is the same either way.
