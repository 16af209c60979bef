/**
 * The Telegram sender: a bot client created on first use from the configured token, and two
 * send operations (by username, by chat id) that turn every failure into a result value.
 */
module Telegram {
  import opened Wrappers
  import Senders

  const NotConfigured: string := "Telegram bot not configured. Please add botToken to config."
  const UnknownError: string := "Unknown error sending Telegram message"

  /** A bot client, as `new TelegramBot(token, { polling: false })` makes it. */
  class Bot {
    const token: string

    constructor (token: string)
      ensures this.token == token
    {
      this.token := token;
    }
  }

  /** Where `bot.sendMessage` is told to deliver. */
  datatype Recipient = Username(name: string) | ChatId(id: int)

  /**
   * How `bot.sendMessage` settles: with the sent message's id, or by rejecting with an error
   * whose `message` is given ("" when the error has none).
   */
  datatype ApiReply = Delivered(messageId: int) | Rejected(message: string)

  /** The Bot API call, outside this model. */
  type BotApi = (Recipient, string) -> ApiReply

  /** `TelegramDeliveryResult`. */
  datatype DeliveryResult = DeliveryResult(success: bool, messageId: Option<int>, error: Option<string>)

  /** A success carries a message id and no error; a failure carries a non-empty error and no id. */
  predicate WellFormed(r: DeliveryResult) {
    if r.success then r.messageId.Some? && r.error.None?
    else r.error.Some? && r.error.value != "" && r.messageId.None?
  }

  /** The `@`-prefixed form of a username. */
  function FormatUsername(username: string): (r: string)
    ensures |r| > 0 && r[0] == '@'
    ensures |username| > 0 && username[0] == '@' ==> r == username
    ensures !(|username| > 0 && username[0] == '@') ==> r[1..] == username
  {
    if |username| > 0 && username[0] == '@' then username else "@" + username
  }

  /** Formatting a username twice is formatting it once. */
  lemma FormatUsernameIdempotent(username: string)
    ensures FormatUsername(FormatUsername(username)) == FormatUsername(username)
  {
  }

  /** `error.message || 'Unknown error sending Telegram message'`. */
  function ErrorText(message: string): (r: string)
    ensures r != ""
    ensures message != "" ==> r == message
  {
    if message != "" then message else UnknownError
  }

  /** The catch block's result. */
  function Caught(message: string): (r: DeliveryResult)
    ensures WellFormed(r) && !r.success
  {
    DeliveryResult(false, None, Some(ErrorText(message)))
  }

  /**
   * The result of one send, given whether a bot was available and how the API call settled:
   * a failure to obtain the bot is reported with the configuration error.
   */
  function SendResultOf(botReady: bool, reply: ApiReply): (r: DeliveryResult)
    ensures WellFormed(r)
    ensures r.success <==> botReady && reply.Delivered?
    ensures r.success ==> r.messageId == Some(reply.messageId)
    ensures !botReady ==> r.error == Some(NotConfigured)
    ensures botReady && reply.Rejected? ==> r.error == Some(ErrorText(reply.message))
  {
    if !botReady then Caught(NotConfigured)
    else match reply
      case Delivered(id) => DeliveryResult(true, Some(id), None)
      case Rejected(m) => Caught(m)
  }

  /** A Telegram result as the delivery engine sees it, the message id given as text. */
  function AsOutcome(r: DeliveryResult, externalId: Option<string>): Senders.SendOutcome {
    Senders.Returned(Senders.SendResult(r.success, externalId, r.error))
  }

  /** Every send result, whatever the bot and the API do, reports its failure with a message. */
  lemma SendResultReports(botReady: bool, reply: ApiReply, externalId: Option<string>)
    ensures Senders.Reports(AsOutcome(SendResultOf(botReady, reply), externalId))
  {
  }

  /** The module's state: the configured token and the lazily created bot. */
  class Client {
    /** `config.telegram.botToken`; "" when it is not set. */
    const botToken: string
    var bot: Bot?

    constructor (botToken: string)
      ensures this.botToken == botToken && bot == null
    {
      this.botToken := botToken;
      bot := null;
    }

    /** Whether a bot is, or can be, created. */
    predicate Ready()
      reads this
    {
      bot != null || botToken != ""
    }

    /**
     * `getTelegramBot`: create the bot the first time a token is available, return the same
     * bot every later time, and fail when there is neither a bot nor a token.
     */
    method GetTelegramBot() returns (r: Result<Bot, string>)
      modifies this`bot
      ensures old(bot) != null ==> bot == old(bot)
      ensures old(bot) == null && botToken != "" ==> fresh(bot) && bot.token == botToken
      ensures old(bot) == null && botToken == "" ==> bot == null
      ensures r.Success? <==> old(Ready())
      ensures r.Success? ==> r.value == bot
      ensures r.Failure? ==> r.error == NotConfigured
    {
      if bot == null && botToken != "" {
        bot := new Bot(botToken);
      }
      if bot == null {
        return Failure(NotConfigured);
      }
      return Success(bot);
    }

    /** `sendAlertTelegram({username, message})`: never throws. */
    method SendAlertTelegram(username: string, message: string, api: BotApi) returns (r: DeliveryResult)
      modifies this`bot
      ensures old(bot) != null ==> bot == old(bot)
      ensures old(bot) == null && botToken != "" ==> fresh(bot) && bot.token == botToken
      ensures old(bot) == null && botToken == "" ==> bot == null
      ensures r == SendResultOf(old(Ready()), api(Username(FormatUsername(username)), message))
    {
      var b := GetTelegramBot();
      if b.Failure? {
        return Caught(b.error);
      }
      var formatted := FormatUsername(username);
      var reply := api(Username(formatted), message);
      match reply {
        case Delivered(id) => r := DeliveryResult(true, Some(id), None);
        case Rejected(m) => r := Caught(m);
      }
    }

    /** `sendAlertTelegramByChatId({chatId, message})`: never throws. */
    method SendAlertTelegramByChatId(chatId: int, message: string, api: BotApi) returns (r: DeliveryResult)
      modifies this`bot
      ensures old(bot) != null ==> bot == old(bot)
      ensures old(bot) == null && botToken != "" ==> fresh(bot) && bot.token == botToken
      ensures old(bot) == null && botToken == "" ==> bot == null
      ensures r == SendResultOf(old(Ready()), api(ChatId(chatId), message))
    {
      var b := GetTelegramBot();
      if b.Failure? {
        return Caught(b.error);
      }
      var reply := api(ChatId(chatId), message);
      match reply {
        case Delivered(id) => r := DeliveryResult(true, Some(id), None);
        case Rejected(m) => r := Caught(m);
      }
    }
  }
}
