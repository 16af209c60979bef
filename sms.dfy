/**
 * `shouldSendSms(user_id)`: the second copy of the alert-window check. It reads one channel
 * row looked up by user alone and compares decimal hours `h + m / 60`, as the source does.
 * The lookup is a parameter: getConfig is called here without a channel type, so which row
 * (if any) comes back is not fixed by the call.
 */
module Sms {
  import opened Wrappers
  import opened Clock
  import Channels
  import Evaluator

  /** The wall-clock time as `getHours() + getMinutes() / 60`. */
  function CurrentHours(now: MinuteOfDay): real {
    DecimalHours(HourMinute(now / 60, now % 60))
  }

  /** The window check on the row the lookup returned; false when no row or a disabled one. */
  function ShouldSendSms(lookup: Option<Channels.ChannelConfig>, now: MinuteOfDay): (r: bool)
    ensures r ==> lookup.Some? && lookup.value.enabled
  {
    if lookup.None? || !lookup.value.enabled then false
    else
      var start := ParseClock(OrDefault(lookup.value.timeStart, DefaultStart));
      var end := ParseClock(OrDefault(lookup.value.timeEnd, DefaultEnd));
      start.Some? && end.Some? && DecimalHours(start.value) <= CurrentHours(now) < DecimalHours(end.value)
  }

  /** On the same row at the same time, the SMS check and the alert check agree. */
  lemma SmsAgreesWithAlertCheck(lookup: Option<Channels.ChannelConfig>, now: MinuteOfDay)
    ensures ShouldSendSms(lookup, now) == Evaluator.Permits(lookup, now)
  {
    if lookup.Some? && lookup.value.enabled {
      var current := HourMinute(now / 60, now % 60);
      assert Minutes(current) == now;
      var start := ParseClock(OrDefault(lookup.value.timeStart, DefaultStart));
      var end := ParseClock(OrDefault(lookup.value.timeEnd, DefaultEnd));
      if start.Some? && end.Some? {
        DecimalHoursOrder(start.value, current);
        DecimalHoursOrder(current, end.value);
      }
    }
  }

  /** When the lookup happens to return the user's row for `kind`, it is exactly shouldSendAlert. */
  lemma SmsMatchesShouldSendAlert(table: seq<Channels.ChannelRow>, user: int, kind: string, now: MinuteOfDay)
    ensures ShouldSendSms(Channels.GetConfig(table, user, kind), now) == Evaluator.ShouldSendAlert(table, user, kind, now)
  {
    SmsAgreesWithAlertCheck(Channels.GetConfig(table, user, kind), now);
  }

  /** For "HH:MM" bounds on an enabled row the SMS window is the half-open [start, end). */
  lemma SmsWindowIsHalfOpen(c: Channels.ChannelConfig, now: MinuteOfDay, start: MinuteOfDay, end: MinuteOfDay)
    requires c.enabled && c.timeStart == Some(FormatClock(start)) && c.timeEnd == Some(FormatClock(end))
    ensures ShouldSendSms(Some(c), now) <==> start <= now < end
  {
    SmsAgreesWithAlertCheck(Some(c), now);
    WindowIsHalfOpen(start, end, now);
  }

  /** Without stored times an enabled row is open at every minute but 23:59. */
  lemma SmsDefaultWindow(c: Channels.ChannelConfig, now: MinuteOfDay)
    requires c.enabled && c.timeStart.None? && c.timeEnd.None?
    ensures ShouldSendSms(Some(c), now) <==> now < 1439
  {
    SmsAgreesWithAlertCheck(Some(c), now);
    DefaultWindow(now);
  }
}
