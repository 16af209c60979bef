/**
 * The contract shared by the channel senders (email, SMS, Telegram): a call returns a
 * result carrying success and either a provider message id or an error text. The providers
 * themselves are outside this model; a delivery pass is given them as functions.
 */
module Senders {
  import opened Wrappers

  datatype SendResult = SendResult(success: bool, externalId: Option<string>, error: Option<string>)

  /** What awaiting a sender yields: its result, or a thrown error with its `message`. */
  datatype SendOutcome = Returned(result: SendResult) | Threw(message: string)

  /**
   * The three senders as one pass sees them: `sendAlertEmail(to, subject, message)`,
   * `sendAlertSms(to, message)` and `sendAlertTelegramByChatId(chatId, message)`.
   */
  datatype Senders = Senders(
    email: (string, string, string) -> SendOutcome,
    sms: (string, string) -> SendOutcome,
    telegram: (int, string) -> SendOutcome)

  /**
   * An outcome as the senders produce it: each sender catches its own errors and reports a
   * failure with a non-empty message (the provider's, or a fixed fallback text).
   */
  predicate Reports(o: SendOutcome) {
    o.Returned? && (!o.result.success ==> Truthy(o.result.error))
  }

  /** Every call of every sender reports its failures. */
  ghost predicate ReportsErrors(s: Senders) {
    && (forall to, subject, text :: Reports(s.email(to, subject, text)))
    && (forall to, text :: Reports(s.sms(to, text)))
    && (forall chatId, text :: Reports(s.telegram(chatId, text)))
  }
}
