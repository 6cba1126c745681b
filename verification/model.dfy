/** Records of the bot: the persisted user and announcement rows, the inbound
    platform events, and the outbound platform calls. */
module Model {
  import opened Wrappers

  /** The sender's profile as the platform reports it (`Chat`). */
  datatype Chat = Chat(firstName: string, lastName: Option<string>, userName: Option<string>)

  /** An inbound message; `text` is absent for stickers, photos and the like,
      and may be empty. */
  datatype Message = Message(chatId: int, messageId: int, text: Option<string>, chat: Chat)

  /** A button press on an inline keyboard: the button's callback data and the
      message that carried the keyboard. Either may be absent. */
  datatype CallbackQuery = CallbackQuery(data: Option<string>, message: Option<Message>)

  /** One inbound platform event. */
  datatype Update = Update(message: Option<Message>, callbackQuery: Option<CallbackQuery>)

  /** A row of the user table, keyed by `chatId`; `registeredAt` is a wall-clock
      time in milliseconds. */
  datatype User = User(chatId: int, firstName: string, lastName: Option<string>,
                       userName: Option<string>, registeredAt: int)

  /** A row of the announcement table; the text column is nullable. */
  datatype Ad = Ad(id: int, adText: Option<string>)

  /** An entry of the bot's command menu. */
  datatype BotCommand = BotCommand(command: string, description: string)

  /** A button of an inline keyboard, carrying the token sent back when pressed. */
  datatype InlineButton = InlineButton(text: string, callbackData: string)

  /** What is attached to an outbound message. */
  datatype Markup =
    | NoMarkup
    | ReplyKeyboard(keyboard: seq<seq<string>>)
    | InlineKeyboard(inlineKeyboard: seq<seq<InlineButton>>)

  /** One call to the messaging platform. */
  datatype Action =
    | SetMyCommands(commands: seq<BotCommand>)
    | Send(chatId: int, text: string, markup: Markup)
    | Edit(chatId: int, messageId: int, text: string)

  const YES_BUTTON := "YES_BUTTON"
  const NO_BUTTON := "NO_BUTTON"
  const SEND_TRIGGER := "/send"
  const NOT_RECOGNIZED := "Sorry, command was not recognized"
  const REGISTER_PROMPT := "Do you really want to register?"
  const YES_PRESSED := "You pressed Yes button!"
  const NO_PRESSED := "You pressed No button!"

  /** The command menu registered with the platform when the bot starts. */
  const MENU_COMMANDS := [
    BotCommand("/start", "get a welcome message"),
    BotCommand("/mydata", "get stored user data"),
    BotCommand("/deletedata", "delete stored user data"),
    BotCommand("/help", "show command info and usages"),
    BotCommand("/settings", "set bot preferences")
  ]

  /** The two-row reply keyboard attached to the welcome reply. */
  const MAIN_KEYBOARD := [
    ["weather", "get random joke"],
    ["register", "check my data", "delete my data"]
  ]

  const HELP_TEXT :=
    "This bot is created to demonstrate Spring capabilities.\n\n"
    + "You can execute commands from the main menu or by typing a command:\n\n"
    + "Type /start to see a welcome message\n\n"
    + "Type /mydata to see stored data about yourself\n\n"
    + "Type /deletedata to delete stored data about yourself\n\n"
    + "Type /settings to set bot preferences\n\n"
    + "Type /help to see this message again"
}
