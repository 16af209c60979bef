/**
 * The delivery engine: the time-window gate, the fan-out of a new alert to every channel of
 * its owner, and the retry pass over failed deliveries.
 */
module Evaluator {
  import opened Wrappers
  import opened Clock
  import opened Senders
  import Channels
  import DeliveryLog
  import Alerts

  type ChannelRow = Channels.ChannelRow
  type ChannelConfig = Channels.ChannelConfig
  type DeliveryRow = DeliveryLog.DeliveryRow
  type Status = DeliveryLog.Status

  const EmailKind: string := "EMAIL"
  const SmsKind: string := "SMS"
  const TelegramKind: string := "TELEGRAM"

  const NoEmail: string := "No email configured"
  const NoPhone: string := "No phone number configured"
  const NoChatId: string := "No Telegram chat ID configured"

  function UnknownKind(kind: string): string {
    "Unknown channel type: " + kind
  }

  /** The e-mail subject of an alert about `metricType`. */
  function Subject(metricType: string): string {
    "Gratheon Alert: " + metricType
  }

  /** The wall clock of one pass: the value written as delivery_time, and the local minute of the day. */
  datatype Now = Now(stamp: int, minute: MinuteOfDay)

  // ---------------------------------------------------------------- the time-window gate

  /** The gate on a looked-up channel row: present, enabled, and inside its window. */
  predicate Permits(config: Option<ChannelConfig>, now: MinuteOfDay) {
    config.Some? && config.value.enabled && InWindow(config.value.timeStart, config.value.timeEnd, now)
  }

  /** `shouldSendAlert(user, kind)`, with the clock read as `now`. */
  function ShouldSendAlert(table: seq<ChannelRow>, user: int, kind: string, now: MinuteOfDay): (r: bool)
    ensures r ==> Channels.GetConfig(table, user, kind).Some? && Channels.GetConfig(table, user, kind).value.enabled
  {
    Permits(Channels.GetConfig(table, user, kind), now)
  }

  /** An enabled channel with a start and an end time is open exactly on `[start, end)`. */
  lemma ShouldSendAlertHalfOpen(table: seq<ChannelRow>, user: int, kind: string, now: MinuteOfDay,
                                start: MinuteOfDay, end: MinuteOfDay)
    requires var c := Channels.GetConfig(table, user, kind);
      c.Some? && c.value.enabled && c.value.timeStart == Some(FormatClock(start)) && c.value.timeEnd == Some(FormatClock(end))
    ensures ShouldSendAlert(table, user, kind, now) <==> start <= now < end
  {
    WindowIsHalfOpen(start, end, now);
  }

  /** Without times, an enabled channel is open every minute but the last of the day. */
  lemma ShouldSendAlertByDefault(table: seq<ChannelRow>, user: int, kind: string, now: MinuteOfDay)
    requires var c := Channels.GetConfig(table, user, kind);
      c.Some? && c.value.enabled && c.value.timeStart.None? && c.value.timeEnd.None?
    ensures ShouldSendAlert(table, user, kind, now) <==> now < 1439
  {
    DefaultWindow(now);
  }

  /** A window whose end is not after its start (such as 22:00-06:00) never opens. */
  lemma ShouldSendAlertInverted(table: seq<ChannelRow>, user: int, kind: string, now: MinuteOfDay,
                                start: MinuteOfDay, end: MinuteOfDay)
    requires var c := Channels.GetConfig(table, user, kind);
      c.Some? && c.value.timeStart == Some(FormatClock(start)) && c.value.timeEnd == Some(FormatClock(end))
    requires end <= start
    ensures !ShouldSendAlert(table, user, kind, now)
  {
    InvertedWindowNeverOpens(start, end, now);
  }

  // ---------------------------------------------------------------- one channel

  /** `!channel.telegram_chat_id` is false: the chat id is present and not 0. */
  predicate HasChatId(ch: ChannelConfig) {
    ch.telegramChatId.Some? && ch.telegramChatId.value != 0
  }

  /** The status, error and provider id one delivery attempt writes to the log. */
  datatype Attempt = Attempt(status: Status, error: Option<string>, externalId: Option<string>)

  /**
   * What a sender's outcome is logged as: sent with the provider id on success, failed with the
   * returned error otherwise, and failed with the exception's message when the call threw.
   */
  function Recorded(outcome: SendOutcome): (r: Attempt)
    ensures r.status == DeliveryLog.Sent <==> outcome.Returned? && outcome.result.success
    ensures r.status != DeliveryLog.Pending
    ensures r.status == DeliveryLog.Sent ==> r.error.None? && r.externalId == outcome.result.externalId
    ensures r.status == DeliveryLog.Failed ==> r.externalId.None?
    ensures outcome.Threw? ==> r.error == Some(outcome.message)
    ensures outcome.Returned? && !outcome.result.success ==> r.error == outcome.result.error
  {
    match outcome
    case Threw(m) => Attempt(DeliveryLog.Failed, Some(m), None)
    case Returned(res) =>
      if res.success then Attempt(DeliveryLog.Sent, None, res.externalId)
      else Attempt(DeliveryLog.Failed, res.error, None)
  }

  /**
   * The switch on channel type `kind` over a channel's destinations: why no sender can be called
   * (the kind's destination is missing, or the kind is not one of the three), or None when the
   * sender of that kind is called.
   */
  function Refusal(kind: string, ch: ChannelConfig): (r: Option<string>)
    ensures r.Some? ==> r.value != ""
    ensures r.None? <==>
      || (kind == EmailKind && Truthy(ch.email))
      || (kind == SmsKind && Truthy(ch.phoneNumber))
      || (kind == TelegramKind && HasChatId(ch))
  {
    if kind == EmailKind then (if Truthy(ch.email) then None else Some(NoEmail))
    else if kind == SmsKind then (if Truthy(ch.phoneNumber) then None else Some(NoPhone))
    else if kind == TelegramKind then (if HasChatId(ch) then None else Some(NoChatId))
    else Some(UnknownKind(kind))
  }

  /** The sender call of kind `kind`, to the channel's destination. */
  function Call(kind: string, ch: ChannelConfig, subject: string, text: string, senders: Senders): SendOutcome
    requires Refusal(kind, ch).None?
  {
    if kind == EmailKind then senders.email(ch.email.value, subject, text)
    else if kind == SmsKind then senders.sms(ch.phoneNumber.value, text)
    else senders.telegram(ch.telegramChatId.value, text)
  }

  /**
   * The log entry the first delivery of an alert writes for one channel that passed the gate:
   * sent exactly when the sender of the channel's kind was called and reported success; a
   * channel without its destination, or of an unknown kind, fails with that kind's message.
   */
  function Dispatch(ch: ChannelConfig, subject: string, text: string, senders: Senders): (r: Attempt)
    ensures r.status != DeliveryLog.Pending
    ensures r.status == DeliveryLog.Sent <==>
      && Refusal(ch.channelType, ch).None?
      && Call(ch.channelType, ch, subject, text, senders).Returned?
      && Call(ch.channelType, ch, subject, text, senders).result.success
    ensures r.status == DeliveryLog.Sent ==>
      && r.error.None? && Refusal(ch.channelType, ch).None?
      && r.externalId == Call(ch.channelType, ch, subject, text, senders).result.externalId
    ensures r.status == DeliveryLog.Failed ==> r.externalId.None?
    ensures ch.channelType == EmailKind && !Truthy(ch.email) ==> r.error == Some(NoEmail)
    ensures ch.channelType == SmsKind && !Truthy(ch.phoneNumber) ==> r.error == Some(NoPhone)
    ensures ch.channelType == TelegramKind && !HasChatId(ch) ==> r.error == Some(NoChatId)
    ensures ch.channelType !in {EmailKind, SmsKind, TelegramKind} ==> r.error == Some(UnknownKind(ch.channelType))
    ensures Refusal(ch.channelType, ch).None? ==>
      var c := Call(ch.channelType, ch, subject, text, senders);
      && (c.Threw? ==> r.error == Some(c.message))
      && (c.Returned? && !c.result.success ==> r.error == c.result.error)
  {
    match Refusal(ch.channelType, ch)
    case Some(reason) => Attempt(DeliveryLog.Failed, Some(reason), None)
    case None => Recorded(Call(ch.channelType, ch, subject, text, senders))
  }

  /**
   * A channel without a destination, or of an unknown kind, is refused before any sender is
   * consulted: the entry is a failure, the same whatever the senders would do.
   */
  lemma RefusedChannelCallsNoSender(ch: ChannelConfig, subject: string, text: string, s1: Senders, s2: Senders)
    requires Refusal(ch.channelType, ch).Some?
    ensures Dispatch(ch, subject, text, s1) == Dispatch(ch, subject, text, s2)
    ensures Dispatch(ch, subject, text, s1).status == DeliveryLog.Failed
  {
  }

  /** The call made for a channel depends only on the sender of the channel's own kind. */
  lemma CallUsesOwnSender(kind: string, ch: ChannelConfig, subject: string, text: string, s1: Senders, s2: Senders)
    requires Refusal(kind, ch).None?
    requires kind == EmailKind ==> s1.email(ch.email.value, subject, text) == s2.email(ch.email.value, subject, text)
    requires kind == SmsKind ==> s1.sms(ch.phoneNumber.value, text) == s2.sms(ch.phoneNumber.value, text)
    requires kind == TelegramKind ==> s1.telegram(ch.telegramChatId.value, text) == s2.telegram(ch.telegramChatId.value, text)
    ensures Call(kind, ch, subject, text, s1) == Call(kind, ch, subject, text, s2)
    ensures kind in {EmailKind, SmsKind, TelegramKind}
  {
  }

  /** With senders that report their failures, a failed entry always carries an error message. */
  lemma DispatchReportsError(ch: ChannelConfig, subject: string, text: string, senders: Senders)
    requires ReportsErrors(senders)
    ensures Dispatch(ch, subject, text, senders).status == DeliveryLog.Failed ==>
      Truthy(Dispatch(ch, subject, text, senders).error)
  {
    if Refusal(ch.channelType, ch).None? {
      var kind := ch.channelType;
      if kind == EmailKind {
        assert Reports(senders.email(ch.email.value, subject, text));
      } else if kind == SmsKind {
        assert Reports(senders.sms(ch.phoneNumber.value, text));
      } else {
        assert Reports(senders.telegram(ch.telegramChatId.value, text));
      }
    }
  }

  /** The channel queries never select the chat id, so a listed Telegram channel always fails. */
  lemma ListedTelegramChannelFails(table: seq<ChannelRow>, user: int, ch: ChannelConfig,
                                   subject: string, text: string, senders: Senders)
    requires ch in Channels.GetAll(table, user) && ch.channelType == TelegramKind
    ensures Dispatch(ch, subject, text, senders) == Attempt(DeliveryLog.Failed, Some(NoChatId), None)
  {
    Channels.GetAllHasNoChatId(table, user);
  }

  // ---------------------------------------------------------------- the fan-out

  /** What one fan-out pass is given besides the channel list. */
  datatype Pass = Pass(table: seq<ChannelRow>, user: int, now: Now, subject: string, text: string, senders: Senders)

  /** The attempt a channel gets in the fan-out: none when disabled or outside its window. */
  function FirstAttempt(ch: ChannelConfig, p: Pass): Option<Attempt> {
    if !ch.enabled || !ShouldSendAlert(p.table, p.user, ch.channelType, p.now.minute) then None
    else Some(Dispatch(ch, p.subject, p.text, p.senders))
  }

  /** One log entry of the fan-out: the channel type and its attempt. */
  datatype Entry = Entry(kind: string, attempt: Attempt)

  /** Each channel's decision in one fan-out pass, in channel order. */
  function Decisions(chs: seq<ChannelConfig>, p: Pass): (r: seq<Option<Attempt>>)
    ensures |r| == |chs|
    ensures forall k :: 0 <= k < |chs| ==> r[k] == FirstAttempt(chs[k], p)
  {
    if chs == [] then [] else Decisions(chs[..|chs| - 1], p) + [FirstAttempt(chs[|chs| - 1], p)]
  }

  /** The entries a loop over `chs` writes, in channel order, given each channel's decision. */
  function Plan(chs: seq<ChannelConfig>, ds: seq<Option<Attempt>>): (r: seq<Entry>)
    requires |ds| == |chs|
    ensures |r| <= |chs|
    decreases |chs|
  {
    if chs == [] then []
    else
      var n := |chs| - 1;
      Plan(chs[..n], ds[..n]) + (match ds[n] case None => [] case Some(a) => [Entry(chs[n].channelType, a)])
  }

  /** The entries of the fan-out over a user's channels. */
  function FanOutPlan(p: Pass): (r: seq<Entry>)
    ensures |r| <= |Channels.GetAll(p.table, p.user)|
  {
    var chs := Channels.GetAll(p.table, p.user);
    Plan(chs, Decisions(chs, p))
  }

  /** The row `logDeliveryAttempt` inserts for an entry. */
  function LogRow(e: Entry, alertId: nat, user: int, at: int, createdAt: nat): DeliveryRow {
    DeliveryLog.Inserted(alertId, user, e.kind, e.attempt.status, e.attempt.error, e.attempt.externalId, at, createdAt)
  }

  /** The delivery-log rows the entries become, with consecutive creation stamps from `stamp0`. */
  function Logged(plan: seq<Entry>, alertId: nat, user: int, at: int, stamp0: nat): (r: seq<DeliveryRow>)
    ensures |r| == |plan|
    ensures forall k :: 0 <= k < |r| ==>
      && r[k].alertId == alertId && r[k].userId == user && r[k].channelType == plan[k].kind
      && r[k].status == plan[k].attempt.status && r[k].retryCount == 0 && r[k].createdAt == stamp0 + k
  {
    seq(|plan|, k requires 0 <= k < |plan| => LogRow(plan[k], alertId, user, at, stamp0 + k))
  }

  lemma LoggedSnoc(plan: seq<Entry>, e: Entry, alertId: nat, user: int, at: int, stamp0: nat)
    ensures Logged(plan + [e], alertId, user, at, stamp0) ==
      Logged(plan, alertId, user, at, stamp0) + [LogRow(e, alertId, user, at, stamp0 + |plan|)]
  {
    var l := Logged(plan + [e], alertId, user, at, stamp0);
    var r := Logged(plan, alertId, user, at, stamp0) + [LogRow(e, alertId, user, at, stamp0 + |plan|)];
    assert |l| == |r|;
    forall k | 0 <= k < |l| ensures l[k] == r[k] {
      if k < |plan| { assert (plan + [e])[k] == plan[k]; }
    }
  }

  /**
   * The rows logged for one more channel: its own row, if it has a decision, at the end, created
   * at `stamp`, the stamp after those of the earlier rows.
   */
  lemma LoggedStep(chs: seq<ChannelConfig>, ds: seq<Option<Attempt>>, i: nat, alertId: nat, user: int, at: int,
                   stamp0: nat, stamp: nat)
    requires |ds| == |chs| && i < |chs|
    requires stamp == stamp0 + |Plan(chs[..i], ds[..i])|
    ensures ds[i].None? ==>
      Logged(Plan(chs[..i + 1], ds[..i + 1]), alertId, user, at, stamp0) == Logged(Plan(chs[..i], ds[..i]), alertId, user, at, stamp0)
    ensures ds[i].Some? ==>
      Logged(Plan(chs[..i + 1], ds[..i + 1]), alertId, user, at, stamp0) ==
      Logged(Plan(chs[..i], ds[..i]), alertId, user, at, stamp0) + [LogRow(Entry(chs[i].channelType, ds[i].value), alertId, user, at, stamp)]
  {
    assert chs[..i + 1][..i] == chs[..i] && ds[..i + 1][..i] == ds[..i];
    if ds[i].Some? {
      LoggedSnoc(Plan(chs[..i], ds[..i]), Entry(chs[i].channelType, ds[i].value), alertId, user, at, stamp0);
    }
  }

  /** Appending one row after a prefix. */
  lemma AppendOne(prefix: seq<DeliveryRow>, added: seq<DeliveryRow>, row: DeliveryRow)
    ensures (prefix + added) + [row] == prefix + (added + [row])
  {
  }

  /** Channel `k` gives entry `e`. */
  predicate Produces(chs: seq<ChannelConfig>, ds: seq<Option<Attempt>>, k: int, e: Entry)
    requires |ds| == |chs|
  {
    0 <= k < |chs| && e.kind == chs[k].channelType && ds[k] == Some(e.attempt)
  }

  /** An entry of the plan is the decision of one of the channels, labelled with its type, and back. */
  lemma {:induction false} PlanMembership(chs: seq<ChannelConfig>, ds: seq<Option<Attempt>>, e: Entry)
    requires |ds| == |chs|
    ensures e in Plan(chs, ds) <==> exists k :: Produces(chs, ds, k, e)
    decreases |chs|
  {
    if chs != [] {
      var n := |chs| - 1;
      PlanMembership(chs[..n], ds[..n], e);
      var tail := match ds[n] case None => [] case Some(a) => [Entry(chs[n].channelType, a)];
      assert Plan(chs, ds) == Plan(chs[..n], ds[..n]) + tail;
      if e in tail {
        assert Produces(chs, ds, n, e);
      }
      if k :| Produces(chs[..n], ds[..n], k, e) {
        assert Produces(chs, ds, k, e);
      }
      if k :| Produces(chs, ds, k, e) {
        if k < n {
          assert Produces(chs[..n], ds[..n], k, e);
        } else {
          assert e in tail;
        }
      }
    }
  }

  /** With one channel per type, the plan writes at most one entry per type. */
  lemma {:induction false} PlanKindsDistinct(chs: seq<ChannelConfig>, ds: seq<Option<Attempt>>)
    requires |ds| == |chs| && Channels.DistinctTypes(chs)
    ensures forall i, j :: 0 <= i < j < |Plan(chs, ds)| ==> Plan(chs, ds)[i].kind != Plan(chs, ds)[j].kind
    decreases |chs|
  {
    if chs != [] {
      var n := |chs| - 1;
      var init := chs[..n];
      assert Channels.DistinctTypes(init) by {
        forall i, j | 0 <= i < j < |init| ensures init[i].channelType != init[j].channelType {
          assert init[i] == chs[i] && init[j] == chs[j];
        }
      }
      PlanKindsDistinct(init, ds[..n]);
      forall e | e in Plan(init, ds[..n]) ensures e.kind != chs[n].channelType {
        PlanMembership(init, ds[..n], e);
        var k :| Produces(init, ds[..n], k, e);
        assert init[k] == chs[k];
      }
    }
  }

  /**
   * With one channel per type, a channel with a decision gets exactly the one entry holding that
   * decision, and a channel without one gets none.
   */
  lemma PlanCoversEachChannel(chs: seq<ChannelConfig>, ds: seq<Option<Attempt>>, k: nat)
    requires |ds| == |chs| && Channels.DistinctTypes(chs) && k < |chs|
    ensures (exists e :: e in Plan(chs, ds) && e.kind == chs[k].channelType) <==> ds[k].Some?
    ensures forall e :: e in Plan(chs, ds) && e.kind == chs[k].channelType ==> ds[k] == Some(e.attempt)
  {
    forall i | 0 <= i < |chs| ensures chs[i].channelType == chs[k].channelType ==> i == k {
      if i < k { assert chs[i].channelType != chs[k].channelType; }
      else if k < i { assert chs[k].channelType != chs[i].channelType; }
    }
    forall e | e in Plan(chs, ds) && e.kind == chs[k].channelType
      ensures ds[k] == Some(e.attempt)
    {
      PlanMembership(chs, ds, e);
      var k' :| Produces(chs, ds, k', e);
    }
    if ds[k].Some? {
      PlanMembership(chs, ds, Entry(chs[k].channelType, ds[k].value));
      assert Produces(chs, ds, k, Entry(chs[k].channelType, ds[k].value));
    }
  }

  /**
   * In the fan-out over a user's channels, an enabled channel inside its window gets exactly one
   * entry, the one its own dispatch gives, and a disabled or out-of-window channel gets none.
   */
  lemma FanOutCoversEachChannel(p: Pass, ch: ChannelConfig)
    requires Channels.UniqueKeys(p.table) && ch in Channels.GetAll(p.table, p.user)
    ensures (exists e :: e in FanOutPlan(p) && e.kind == ch.channelType) <==>
      ch.enabled && ShouldSendAlert(p.table, p.user, ch.channelType, p.now.minute)
    ensures forall e :: e in FanOutPlan(p) && e.kind == ch.channelType ==>
      e.attempt == Dispatch(ch, p.subject, p.text, p.senders)
  {
    var chs := Channels.GetAll(p.table, p.user);
    var k :| 0 <= k < |chs| && chs[k] == ch;
    Channels.GetAllDistinctTypes(p.table, p.user);
    PlanCoversEachChannel(chs, Decisions(chs, p), k);
  }

  /** With senders that report their failures, every failed row the fan-out logs has an error message. */
  lemma FanOutKeepsFailuresExplained(rows: seq<DeliveryRow>, p: Pass, alertId: nat, at: int, stamp0: nat)
    requires DeliveryLog.FailuresExplained(rows) && ReportsErrors(p.senders)
    ensures DeliveryLog.FailuresExplained(rows + Logged(FanOutPlan(p), alertId, p.user, at, stamp0))
  {
    var chs := Channels.GetAll(p.table, p.user);
    var ds := Decisions(chs, p);
    var plan := FanOutPlan(p);
    var added := Logged(plan, alertId, p.user, at, stamp0);
    forall k | 0 <= k < |added| && added[k].status == DeliveryLog.Failed
      ensures added[k].errorMessage.Some?
    {
      var e := plan[k];
      assert added[k] == LogRow(e, alertId, p.user, at, stamp0 + k);
      PlanMembership(chs, ds, e);
      var i :| Produces(chs, ds, i, e);
      DispatchReportsError(chs[i], p.subject, p.text, p.senders);
    }
    var all := rows + added;
    forall j | 0 <= j < |all| && all[j].status == DeliveryLog.Failed
      ensures all[j].errorMessage.Some?
    {
      if j >= |rows| {
        assert all[j] == added[j - |rows|];
      }
    }
  }

  /**
   * Rows logged for a fresh alert under distinct channel types keep the log at one row per
   * (alert, channel type).
   */
  lemma LoggedKeepsKeysUnique(rows: seq<DeliveryRow>, plan: seq<Entry>, alertId: nat, user: int, at: int, stamp0: nat)
    requires DeliveryLog.UniqueKeys(rows)
    requires forall i :: 0 <= i < |rows| ==> rows[i].alertId < alertId
    requires forall i, j :: 0 <= i < j < |plan| ==> plan[i].kind != plan[j].kind
    ensures DeliveryLog.UniqueKeys(rows + Logged(plan, alertId, user, at, stamp0))
  {
    var added := Logged(plan, alertId, user, at, stamp0);
    var all := rows + added;
    forall i, j | 0 <= i < j < |all|
      ensures all[i].alertId != all[j].alertId || all[i].channelType != all[j].channelType
    {
      if j < |rows| {
        assert all[i] == rows[i] && all[j] == rows[j];
      } else if i < |rows| {
        assert all[j] == added[j - |rows|];
      } else {
        assert all[i] == added[i - |rows|] && all[j] == added[j - |rows|];
      }
    }
  }

  /** The rows a fan-out logs for a fresh alert keep one row per (alert, channel type). */
  lemma FanOutKeepsKeysUnique(rows: seq<DeliveryRow>, p: Pass, alertId: nat, at: int, stamp0: nat)
    requires Channels.UniqueKeys(p.table) && DeliveryLog.UniqueKeys(rows)
    requires forall i :: 0 <= i < |rows| ==> rows[i].alertId < alertId
    ensures var rows' := rows + Logged(FanOutPlan(p), alertId, p.user, at, stamp0);
      DeliveryLog.UniqueKeys(rows') && forall i :: 0 <= i < |rows'| ==> rows'[i].alertId <= alertId
  {
    var chs := Channels.GetAll(p.table, p.user);
    Channels.GetAllDistinctTypes(p.table, p.user);
    PlanKindsDistinct(chs, Decisions(chs, p));
    LoggedKeepsKeysUnique(rows, FanOutPlan(p), alertId, p.user, at, stamp0);
    var rows' := rows + Logged(FanOutPlan(p), alertId, p.user, at, stamp0);
    forall i | 0 <= i < |rows'| ensures rows'[i].alertId <= alertId {
      if i >= |rows| { assert rows'[i] == Logged(FanOutPlan(p), alertId, p.user, at, stamp0)[i - |rows|]; }
    }
  }

  // ---------------------------------------------------------------- the stores together

  /**
   * What the engine keeps true of its three tables: each store's own invariant, every logged
   * delivery refers to an alert id already handed out, and one log row per (alert, channel type).
   */
  ghost predicate Consistent(alerts: Alerts.AlertStore, channels: Channels.ChannelStore, log: DeliveryLog.DeliveryLogStore)
    reads alerts, channels, log
  {
    && alerts.Valid() && channels.Valid() && log.Valid()
    && DeliveryLog.UniqueKeys(log.rows)
    && forall i :: 0 <= i < |log.rows| ==> log.rows[i].alertId < alerts.nextId
  }

  /** Log the outcome of a sender call as the source's three-way result handling does. */
  method LogOutcome(log: DeliveryLog.DeliveryLogStore, alertId: nat, user: int, kind: string, outcome: SendOutcome, at: int)
    requires log.Valid()
    modifies log
    ensures log.Valid() && log.nextStamp == old(log.nextStamp) + 1
    ensures var a := Recorded(outcome);
      log.rows == old(log.rows) + [DeliveryLog.Inserted(alertId, user, kind, a.status, a.error, a.externalId, at, old(log.nextStamp))]
  {
    match outcome {
      case Threw(m) =>
        log.LogDeliveryAttempt(alertId, user, kind, DeliveryLog.Failed, Some(m), None, at);
      case Returned(res) =>
        if res.success {
          log.LogDeliveryAttempt(alertId, user, kind, DeliveryLog.Sent, None, res.externalId, at);
        } else {
          log.LogDeliveryAttempt(alertId, user, kind, DeliveryLog.Failed, res.error, None, at);
        }
    }
  }

  /**
   * The try block of the fan-out for one channel that passed the gate: the switch on the channel
   * type, writing one log row.
   */
  method DeliverToChannel(log: DeliveryLog.DeliveryLogStore, alertId: nat, user: int, ch: ChannelConfig,
                          subject: string, text: string, senders: Senders, at: int)
    requires log.Valid()
    modifies log
    ensures log.Valid() && log.nextStamp == old(log.nextStamp) + 1
    ensures log.rows == old(log.rows) + [LogRow(Entry(ch.channelType, Dispatch(ch, subject, text, senders)), alertId, user, at, old(log.nextStamp))]
  {
    var kind := ch.channelType;
    if kind == EmailKind {
      if !Truthy(ch.email) {
        log.LogDeliveryAttempt(alertId, user, kind, DeliveryLog.Failed, Some(NoEmail), None, at);
      } else {
        var outcome := senders.email(ch.email.value, subject, text);
        LogOutcome(log, alertId, user, kind, outcome, at);
      }
    } else if kind == SmsKind {
      if !Truthy(ch.phoneNumber) {
        log.LogDeliveryAttempt(alertId, user, kind, DeliveryLog.Failed, Some(NoPhone), None, at);
      } else {
        var outcome := senders.sms(ch.phoneNumber.value, text);
        LogOutcome(log, alertId, user, kind, outcome, at);
      }
    } else if kind == TelegramKind {
      if !HasChatId(ch) {
        log.LogDeliveryAttempt(alertId, user, kind, DeliveryLog.Failed, Some(NoChatId), None, at);
      } else {
        var outcome := senders.telegram(ch.telegramChatId.value, text);
        LogOutcome(log, alertId, user, kind, outcome, at);
      }
    } else {
      log.LogDeliveryAttempt(alertId, user, kind, DeliveryLog.Failed, Some(UnknownKind(kind)), None, at);
    }
  }

  /**
   * The loop of `createAndDeliverAlert` over the user's channels: a disabled or out-of-window
   * channel is skipped, every other channel gets one log row.
   */
  method FanOut(log: DeliveryLog.DeliveryLogStore, table: seq<ChannelRow>, alertId: nat, user: int,
                now: Now, subject: string, text: string, senders: Senders)
    requires log.Valid()
    requires Channels.UniqueKeys(table) && DeliveryLog.UniqueKeys(log.rows)
    requires forall i :: 0 <= i < |log.rows| ==> log.rows[i].alertId < alertId
    modifies log
    ensures log.Valid()
    ensures log.rows == old(log.rows) +
      Logged(FanOutPlan(Pass(table, user, now, subject, text, senders)), alertId, user, now.stamp, old(log.nextStamp))
    ensures DeliveryLog.UniqueKeys(log.rows) && forall i :: 0 <= i < |log.rows| ==> log.rows[i].alertId <= alertId
  {
    ghost var rows0 := log.rows;
    ghost var stamp0 := log.nextStamp;
    ghost var added: seq<DeliveryRow> := [];
    var chs := Channels.GetAll(table, user);
    ghost var ds := Decisions(chs, Pass(table, user, now, subject, text, senders));
    for i := 0 to |chs|
      invariant log.Valid()
      invariant log.rows == rows0 + added && log.nextStamp == stamp0 + |added|
      invariant added == Logged(Plan(chs[..i], ds[..i]), alertId, user, now.stamp, stamp0)
    {
      var ch := chs[i];
      ghost var stamp := log.nextStamp;
      LoggedStep(chs, ds, i, alertId, user, now.stamp, stamp0, stamp);
      if !ch.enabled {
        continue;
      }
      var shouldSend := ShouldSendAlert(table, user, ch.channelType, now.minute);
      if !shouldSend {
        continue;
      }
      DeliverToChannel(log, alertId, user, ch, subject, text, senders, now.stamp);
      ghost var row := LogRow(Entry(ch.channelType, Dispatch(ch, subject, text, senders)), alertId, user, now.stamp, stamp);
      AppendOne(rows0, added, row);
      added := added + [row];
    }
    assert chs[..|chs|] == chs && ds[..|chs|] == ds;
    FanOutKeepsKeysUnique(rows0, Pass(table, user, now, subject, text, senders), alertId, now.stamp, stamp0);
  }

  /**
   * The part of `createAndDeliverAlert` after the insert: fan the new alert out to the user's
   * channels, then mark it delivered.
   */
  method DeliverNewAlert(alerts: Alerts.AlertStore, channels: Channels.ChannelStore, log: DeliveryLog.DeliveryLogStore,
                         alertId: nat, user: int, text: string, metricType: string, now: Now, senders: Senders)
    requires Consistent(alerts, channels, log)
    requires alertId in alerts.alerts && alertId + 1 == alerts.nextId
    requires forall i :: 0 <= i < |log.rows| ==> log.rows[i].alertId < alertId
    modifies alerts, log
    ensures Consistent(alerts, channels, log)
    ensures alerts.nextId == old(alerts.nextId)
    ensures alerts.alerts == old(alerts.alerts)[alertId := old(alerts.alerts)[alertId].(delivered := true)]
    ensures log.rows == old(log.rows) +
      Logged(FanOutPlan(Pass(channels.rows, user, now, Subject(metricType), text, senders)), alertId, user, now.stamp, old(log.nextStamp))
  {
    FanOut(log, channels.rows, alertId, user, now, Subject(metricType), text, senders);
    alerts.MarkAsDelivered(alertId);
  }

  /**
   * `createAndDeliverAlert`: insert the alert, give each of the user's enabled in-window channels
   * one delivery-log row, then mark the alert delivered and return its id.
   */
  method CreateAndDeliverAlert(alerts: Alerts.AlertStore, channels: Channels.ChannelStore, log: DeliveryLog.DeliveryLogStore,
                               user: int, text: string, hiveId: Option<string>, metricType: string,
                               metricValue: real, ruleId: Option<int>, now: Now, senders: Senders)
    returns (alertId: nat)
    requires Consistent(alerts, channels, log)
    modifies alerts, log
    ensures Consistent(alerts, channels, log)
    ensures alertId == old(alerts.nextId) && alertId !in old(alerts.alerts) && alerts.nextId == alertId + 1
    ensures alerts.alerts == old(alerts.alerts)[alertId := Alerts.Alert(alertId, user, text, hiveId, metricType, metricValue, ruleId, true)]
    ensures log.rows == old(log.rows) +
      Logged(FanOutPlan(Pass(channels.rows, user, now, Subject(metricType), text, senders)), alertId, user, now.stamp, old(log.nextStamp))
  {
    ghost var before := alerts.alerts;
    alertId := alerts.CreateAlert(user, text, hiveId, metricType, metricValue, ruleId);
    MarkAfterInsert(before, alertId, Alerts.Alert(alertId, user, text, hiveId, metricType, metricValue, ruleId, false));
    DeliverNewAlert(alerts, channels, log, alertId, user, text, metricType, now, senders);
  }

  /** Inserting an alert and then marking it delivered stores it delivered. */
  lemma MarkAfterInsert(m: map<nat, Alerts.Alert>, id: nat, a: Alerts.Alert)
    ensures m[id := a][id := m[id := a][id].(delivered := true)] == m[id := a.(delivered := true)]
  {
  }

  // ---------------------------------------------------------------- the retry pass

  /**
   * The retry's switch on the delivery's channel type `kind`: no update at all when the
   * destination is missing or the kind is unknown, otherwise the sender's outcome.
   */
  function Redispatch(kind: string, ch: ChannelConfig, subject: string, text: string, senders: Senders): (r: Option<Attempt>)
    ensures r.None? <==> Refusal(kind, ch).Some?
    ensures r.Some? ==> r.value.status != DeliveryLog.Pending
    ensures r.Some? && kind == ch.channelType ==> r.value == Dispatch(ch, subject, text, senders)
  {
    if Refusal(kind, ch).Some? then None else Some(Recorded(Call(kind, ch, subject, text, senders)))
  }

  /** What one retry pass is given besides the failed rows. */
  datatype RetryEnv = RetryEnv(alerts: map<nat, Alerts.Alert>, table: seq<ChannelRow>, now: Now, senders: Senders)

  /**
   * The decision for one failed delivery: None when the pass skips it (the alert is gone, the
   * channel is missing, disabled or outside its window, the destination is missing or the kind is
   * unknown), otherwise the attempt it writes back.
   */
  function RetryDecision(d: DeliveryRow, env: RetryEnv): (r: Option<Attempt>)
    ensures r.Some? <==>
      && d.alertId in env.alerts
      && ShouldSendAlert(env.table, d.userId, d.channelType, env.now.minute)
      && Refusal(d.channelType, Channels.GetConfig(env.table, d.userId, d.channelType).value).None?
    ensures r.Some? ==>
      r.value == Dispatch(Channels.GetConfig(env.table, d.userId, d.channelType).value,
                          Subject(env.alerts[d.alertId].metricType), env.alerts[d.alertId].text, env.senders)
  {
    if d.alertId !in env.alerts then None
    else
      var alert := env.alerts[d.alertId];
      var channel := Channels.GetConfig(env.table, d.userId, d.channelType);
      if channel.None? || !channel.value.enabled then None
      else if !ShouldSendAlert(env.table, d.userId, d.channelType, env.now.minute) then None
      else Redispatch(d.channelType, channel.value, Subject(alert.metricType), alert.text, env.senders)
  }

  /** The channel queries never select the chat id, so a failed Telegram delivery is never retried. */
  lemma TelegramIsNeverRetried(d: DeliveryRow, env: RetryEnv)
    requires d.channelType == TelegramKind
    ensures RetryDecision(d, env).None?
  {
  }

  /** One `updateDeliveryStatus` call: the key it matches and what it writes. */
  datatype Update = Update(alertId: nat, kind: string, attempt: Attempt)

  /** The update a failed row receives in a retry pass, keyed by the row's own (alert, type). */
  function UpdateOf(d: DeliveryRow, env: RetryEnv): (r: Option<Update>)
    ensures r.Some? ==> r.value.alertId == d.alertId && r.value.kind == d.channelType
  {
    match RetryDecision(d, env)
    case None => None
    case Some(a) => Some(Update(d.alertId, d.channelType, a))
  }

  /** Each listed row's update, if any, in list order. */
  function UpdatesOf(snapshot: seq<DeliveryRow>, env: RetryEnv): (r: seq<Option<Update>>)
    ensures |r| == |snapshot|
    ensures forall k :: 0 <= k < |snapshot| ==> r[k] == UpdateOf(snapshot[k], env)
  {
    seq(|snapshot|, k requires 0 <= k < |snapshot| => UpdateOf(snapshot[k], env))
  }

  /** The updates that are present, in order. */
  function Collect(us: seq<Option<Update>>): (r: seq<Update>)
    ensures |r| <= |us|
    decreases |us|
  {
    if us == [] then []
    else
      var n := |us| - 1;
      Collect(us[..n]) + (match us[n] case None => [] case Some(u) => [u])
  }

  /** The updates a retry pass over `snapshot` issues, in order. */
  function RetryUpdates(snapshot: seq<DeliveryRow>, env: RetryEnv): (r: seq<Update>)
    ensures |r| <= |snapshot|
  {
    Collect(UpdatesOf(snapshot, env))
  }

  /** One more decision adds its update, if it has one, at the end. */
  lemma CollectStep(us: seq<Option<Update>>, i: nat)
    requires i < |us|
    ensures Collect(us[..i + 1]) == Collect(us[..i]) + (match us[i] case None => [] case Some(u) => [u])
  {
    assert us[..i + 1][..i] == us[..i];
  }

  /** An update is collected exactly when it is one of the decisions. */
  lemma {:induction false} CollectMembership(us: seq<Option<Update>>, u: Update)
    ensures u in Collect(us) <==> exists k :: 0 <= k < |us| && us[k] == Some(u)
    decreases |us|
  {
    if us != [] {
      var n := |us| - 1;
      CollectMembership(us[..n], u);
      var tail := match us[n] case None => [] case Some(v) => [v];
      assert Collect(us) == Collect(us[..n]) + tail;
      if u in tail {
        assert us[n] == Some(u);
      }
      if k :| 0 <= k < n && us[..n][k] == Some(u) {
        assert us[k] == Some(u);
      }
      if k :| 0 <= k < |us| && us[k] == Some(u) {
        if k < n {
          assert us[..n][k] == Some(u);
        } else {
          assert u in tail;
        }
      }
    }
  }

  /** Decisions with pairwise distinct keys collect into updates with distinct keys. */
  lemma {:induction false} CollectDistinct(us: seq<Option<Update>>)
    requires forall i, j :: 0 <= i < j < |us| && us[i].Some? && us[j].Some? ==>
      us[i].value.alertId != us[j].value.alertId || us[i].value.kind != us[j].value.kind
    ensures DistinctKeys(Collect(us))
    decreases |us|
  {
    if us != [] {
      var n := |us| - 1;
      var init := us[..n];
      CollectDistinct(init);
      if us[n].Some? {
        var v := us[n].value;
        forall w | w in Collect(init) ensures w.alertId != v.alertId || w.kind != v.kind {
          CollectMembership(init, w);
          var k :| 0 <= k < |init| && init[k] == Some(w);
          assert us[k] == Some(w);
        }
      }
    }
  }

  /** The table after the updates, applied one after the other. */
  function ApplyUpdates(rows: seq<DeliveryRow>, ups: seq<Update>, at: int): (r: seq<DeliveryRow>)
    ensures |r| == |rows|
    decreases |ups|
  {
    if ups == [] then rows
    else
      var u := ups[|ups| - 1];
      DeliveryLog.UpdateMatching(ApplyUpdates(rows, ups[..|ups| - 1], at), u.alertId, u.kind,
                                 u.attempt.status, u.attempt.error, u.attempt.externalId, at)
  }

  /** Applying one more update. */
  lemma ApplyStep(rows: seq<DeliveryRow>, ups: seq<Update>, u: Update, at: int)
    ensures ApplyUpdates(rows, ups + [u], at) ==
      DeliveryLog.UpdateMatching(ApplyUpdates(rows, ups, at), u.alertId, u.kind, u.attempt.status, u.attempt.error, u.attempt.externalId, at)
  {
    assert (ups + [u])[..|ups|] == ups;
  }

  /** The update a row receives from a list of updates: the last one matching its key. */
  function UpdateFor(ups: seq<Update>, row: DeliveryRow): (r: Option<Update>)
    ensures r.Some? ==> r.value in ups && DeliveryLog.HasKey(row, r.value.alertId, r.value.kind)
    ensures r.None? ==> forall u :: u in ups ==> !DeliveryLog.HasKey(row, u.alertId, u.kind)
    decreases |ups|
  {
    if ups == [] then None
    else
      var u := ups[|ups| - 1];
      if DeliveryLog.HasKey(row, u.alertId, u.kind) then Some(u) else UpdateFor(ups[..|ups| - 1], row)
  }

  /** No two updates share a key. */
  ghost predicate DistinctKeys(ups: seq<Update>) {
    forall i, j :: 0 <= i < j < |ups| ==> ups[i].alertId != ups[j].alertId || ups[i].kind != ups[j].kind
  }

  /** A row after the update it receives, if any. */
  function Applied(row: DeliveryRow, u: Option<Update>, at: int): DeliveryRow {
    match u
    case None => row
    case Some(v) => DeliveryLog.Bumped(row, v.attempt.status, v.attempt.error, v.attempt.externalId, at)
  }

  /** With distinct keys, each row is bumped once by its own update and otherwise left alone. */
  lemma {:induction false} ApplyUpdatesEffect(rows: seq<DeliveryRow>, ups: seq<Update>, at: int)
    requires DistinctKeys(ups)
    ensures forall j :: 0 <= j < |rows| ==> ApplyUpdates(rows, ups, at)[j] == Applied(rows[j], UpdateFor(ups, rows[j]), at)
    decreases |ups|
  {
    if ups != [] {
      var n := |ups| - 1;
      var init := ups[..n];
      var u := ups[n];
      assert DistinctKeys(init);
      ApplyUpdatesEffect(rows, init, at);
      forall j | 0 <= j < |rows|
        ensures ApplyUpdates(rows, ups, at)[j] == Applied(rows[j], UpdateFor(ups, rows[j]), at)
      {
        if DeliveryLog.HasKey(rows[j], u.alertId, u.kind) {
          forall v | v in init ensures !DeliveryLog.HasKey(rows[j], v.alertId, v.kind) {
            var k :| 0 <= k < n && init[k] == v;
            assert ups[k] == v;
          }
        }
      }
    }
  }

  /** The failed rows listed by the query have distinct keys when the table does. */
  lemma SnapshotKeysDistinct(rows: seq<DeliveryRow>, snapshot: seq<DeliveryRow>)
    requires DeliveryLog.UniqueKeys(rows) && DeliveryLog.NewestFirst(snapshot)
    requires forall x :: x in snapshot ==> x in rows
    ensures forall i, j :: 0 <= i < j < |snapshot| ==>
      snapshot[i].alertId != snapshot[j].alertId || snapshot[i].channelType != snapshot[j].channelType
  {
    forall i, j | 0 <= i < j < |snapshot|
      ensures snapshot[i].alertId != snapshot[j].alertId || snapshot[i].channelType != snapshot[j].channelType
    {
      assert snapshot[i] in rows && snapshot[j] in rows;
      var a :| 0 <= a < |rows| && rows[a] == snapshot[i];
      var b :| 0 <= b < |rows| && rows[b] == snapshot[j];
      assert snapshot[i].createdAt > snapshot[j].createdAt;
    }
  }

  /** Every update of the pass is that of one of the listed rows, and back. */
  lemma RetryUpdatesMembership(snapshot: seq<DeliveryRow>, env: RetryEnv, u: Update)
    ensures u in RetryUpdates(snapshot, env) <==> exists k :: 0 <= k < |snapshot| && UpdateOf(snapshot[k], env) == Some(u)
  {
    var us := UpdatesOf(snapshot, env);
    CollectMembership(us, u);
    if k :| 0 <= k < |snapshot| && UpdateOf(snapshot[k], env) == Some(u) {
      assert us[k] == Some(u);
    }
  }

  /** Listed rows with distinct keys give updates with distinct keys. */
  lemma RetryUpdatesDistinct(snapshot: seq<DeliveryRow>, env: RetryEnv)
    requires forall i, j :: 0 <= i < j < |snapshot| ==>
      snapshot[i].alertId != snapshot[j].alertId || snapshot[i].channelType != snapshot[j].channelType
    ensures DistinctKeys(RetryUpdates(snapshot, env))
  {
    CollectDistinct(UpdatesOf(snapshot, env));
  }

  /** Two rows of a table with unique keys that share a key are the same row. */
  lemma SameKeySameRow(rows: seq<DeliveryRow>, x: DeliveryRow, y: DeliveryRow)
    requires DeliveryLog.UniqueKeys(rows) && x in rows && y in rows
    requires x.alertId == y.alertId && x.channelType == y.channelType
    ensures x == y
  {
    var a :| 0 <= a < |rows| && rows[a] == x;
    var b :| 0 <= b < |rows| && rows[b] == y;
  }

  /** The update a table row receives in a pass is its own decision, and only if it was listed. */
  lemma UpdateForListedRow(rows: seq<DeliveryRow>, snapshot: seq<DeliveryRow>, env: RetryEnv, row: DeliveryRow)
    requires DeliveryLog.UniqueKeys(rows) && row in rows
    requires forall x :: x in snapshot ==> x in rows
    requires DistinctKeys(RetryUpdates(snapshot, env))
    ensures UpdateFor(RetryUpdates(snapshot, env), row) == if row in snapshot then UpdateOf(row, env) else None
  {
    var ups := RetryUpdates(snapshot, env);
    var r := UpdateFor(ups, row);
    if r.Some? {
      RetryUpdatesMembership(snapshot, env, r.value);
      var k :| 0 <= k < |snapshot| && UpdateOf(snapshot[k], env) == Some(r.value);
      SameKeySameRow(rows, snapshot[k], row);
    }
    if row in snapshot && UpdateOf(row, env).Some? {
      var u := UpdateOf(row, env).value;
      var k :| 0 <= k < |snapshot| && snapshot[k] == row;
      RetryUpdatesMembership(snapshot, env, u);
      assert r.Some?;
    }
  }

  /**
   * The effect of a whole retry pass on the table: a row listed by the failed-delivery query
   * whose decision is an attempt is bumped exactly once with that attempt (and had retries left);
   * every other row, skipped or not listed, is unchanged.
   */
  lemma RetryPassEffect(rows: seq<DeliveryRow>, maxRetries: int, env: RetryEnv)
    requires DeliveryLog.Chronological(rows) && DeliveryLog.UniqueKeys(rows)
    ensures var snapshot := DeliveryLog.FailedDeliveries(rows, maxRetries);
      var rows' := ApplyUpdates(rows, RetryUpdates(snapshot, env), env.now.stamp);
      && |rows'| == |rows|
      && forall j :: 0 <= j < |rows| ==>
        if rows[j] in snapshot && RetryDecision(rows[j], env).Some? then
          var a := RetryDecision(rows[j], env).value;
          && rows'[j] == DeliveryLog.Bumped(rows[j], a.status, a.error, a.externalId, env.now.stamp)
          && rows[j].status == DeliveryLog.Failed && rows[j].retryCount < maxRetries
        else rows'[j] == rows[j]
  {
    var snapshot := DeliveryLog.FailedDeliveries(rows, maxRetries);
    var ups := RetryUpdates(snapshot, env);
    SnapshotKeysDistinct(rows, snapshot);
    RetryUpdatesDistinct(snapshot, env);
    ApplyUpdatesEffect(rows, ups, env.now.stamp);
    forall j | 0 <= j < |rows|
      ensures UpdateFor(ups, rows[j]) == if rows[j] in snapshot then UpdateOf(rows[j], env) else None
    {
      UpdateForListedRow(rows, snapshot, env, rows[j]);
    }
  }

  /**
   * With senders that report their failures, a retry pass keeps every failed row explained: a
   * row it bumps to failed gets the sender's or the refusal's message.
   */
  lemma RetryKeepsFailuresExplained(rows: seq<DeliveryRow>, maxRetries: int, env: RetryEnv)
    requires DeliveryLog.Chronological(rows) && DeliveryLog.UniqueKeys(rows)
    requires DeliveryLog.FailuresExplained(rows) && ReportsErrors(env.senders)
    ensures DeliveryLog.FailuresExplained(
      ApplyUpdates(rows, RetryUpdates(DeliveryLog.FailedDeliveries(rows, maxRetries), env), env.now.stamp))
  {
    var snapshot := DeliveryLog.FailedDeliveries(rows, maxRetries);
    var rows' := ApplyUpdates(rows, RetryUpdates(snapshot, env), env.now.stamp);
    RetryPassEffect(rows, maxRetries, env);
    forall j | 0 <= j < |rows'| && rows'[j].status == DeliveryLog.Failed
      ensures rows'[j].errorMessage.Some?
    {
      var d := rows[j];
      if d in snapshot && RetryDecision(d, env).Some? {
        var ch := Channels.GetConfig(env.table, d.userId, d.channelType).value;
        var alert := env.alerts[d.alertId];
        DispatchReportsError(ch, Subject(alert.metricType), alert.text, env.senders);
      }
    }
  }

  /** Log the outcome of a retried sender call as one `updateDeliveryStatus`. */
  method UpdateOutcome(log: DeliveryLog.DeliveryLogStore, alertId: nat, kind: string, outcome: SendOutcome, at: int)
    requires log.Valid()
    modifies log
    ensures log.Valid() && log.nextStamp == old(log.nextStamp)
    ensures var a := Recorded(outcome);
      log.rows == DeliveryLog.UpdateMatching(old(log.rows), alertId, kind, a.status, a.error, a.externalId, at)
  {
    match outcome {
      case Threw(m) =>
        log.UpdateDeliveryStatus(alertId, kind, DeliveryLog.Failed, Some(m), None, at);
      case Returned(res) =>
        if res.success {
          log.UpdateDeliveryStatus(alertId, kind, DeliveryLog.Sent, None, res.externalId, at);
        } else {
          log.UpdateDeliveryStatus(alertId, kind, DeliveryLog.Failed, res.error, None, at);
        }
    }
  }

  /** The try block of the retry for one delivery: the switch on its channel type. */
  method RedeliverToChannel(log: DeliveryLog.DeliveryLogStore, alertId: nat, kind: string, ch: ChannelConfig,
                            subject: string, text: string, senders: Senders, at: int)
    requires log.Valid()
    modifies log
    ensures log.Valid() && log.nextStamp == old(log.nextStamp)
    ensures Redispatch(kind, ch, subject, text, senders).None? ==> log.rows == old(log.rows)
    ensures Redispatch(kind, ch, subject, text, senders).Some? ==>
      var u := Update(alertId, kind, Redispatch(kind, ch, subject, text, senders).value);
      log.rows == DeliveryLog.UpdateMatching(old(log.rows), u.alertId, u.kind, u.attempt.status, u.attempt.error, u.attempt.externalId, at)
  {
    if kind == EmailKind {
      if Truthy(ch.email) {
        var outcome := senders.email(ch.email.value, subject, text);
        UpdateOutcome(log, alertId, kind, outcome, at);
      }
    } else if kind == SmsKind {
      if Truthy(ch.phoneNumber) {
        var outcome := senders.sms(ch.phoneNumber.value, text);
        UpdateOutcome(log, alertId, kind, outcome, at);
      }
    } else if kind == TelegramKind {
      if HasChatId(ch) {
        var outcome := senders.telegram(ch.telegramChatId.value, text);
        UpdateOutcome(log, alertId, kind, outcome, at);
      }
    }
  }

  /**
   * `retryFailedDeliveries(maxRetries)`: list the failed rows once, then for each one either skip
   * it or write back exactly one new attempt.
   */
  method RetryFailedDeliveries(alerts: Alerts.AlertStore, channels: Channels.ChannelStore, log: DeliveryLog.DeliveryLogStore,
                               maxRetries: int, now: Now, senders: Senders)
    requires Consistent(alerts, channels, log)
    modifies log
    ensures Consistent(alerts, channels, log)
    ensures log.nextStamp == old(log.nextStamp)
    ensures log.rows == ApplyUpdates(old(log.rows),
      RetryUpdates(DeliveryLog.FailedDeliveries(old(log.rows), maxRetries), RetryEnv(alerts.alerts, channels.rows, now, senders)),
      now.stamp)
  {
    ghost var rows0 := log.rows;
    ghost var env := RetryEnv(alerts.alerts, channels.rows, now, senders);
    ghost var applied: seq<Update> := [];
    var failed := DeliveryLog.FailedDeliveries(log.rows, maxRetries);
    ghost var us := UpdatesOf(failed, env);
    for i := 0 to |failed|
      invariant log.Valid() && log.nextStamp == old(log.nextStamp)
      invariant log.rows == ApplyUpdates(rows0, applied, now.stamp)
      invariant applied == Collect(us[..i])
    {
      var d := failed[i];
      CollectStep(us, i);
      if d.alertId !in alerts.alerts {
        continue;
      }
      var alert := alerts.alerts[d.alertId];
      var channel := Channels.GetConfig(channels.rows, d.userId, d.channelType);
      if channel.None? || !channel.value.enabled {
        continue;
      }
      var shouldSend := ShouldSendAlert(channels.rows, d.userId, d.channelType, now.minute);
      if !shouldSend {
        continue;
      }
      RedeliverToChannel(log, d.alertId, d.channelType, channel.value, Subject(alert.metricType), alert.text, senders, now.stamp);
      ghost var a := Redispatch(d.channelType, channel.value, Subject(alert.metricType), alert.text, senders);
      if a.Some? {
        ApplyStep(rows0, applied, Update(d.alertId, d.channelType, a.value), now.stamp);
        applied := applied + [Update(d.alertId, d.channelType, a.value)];
      }
    }
    assert us[..|failed|] == us;
    RetryKeepsConsistent(rows0, applied, now.stamp, alerts.nextId);
  }

  /** Updates keep the log's invariants and leave its alert ids as they were. */
  lemma {:induction false} RetryKeepsConsistent(rows: seq<DeliveryRow>, ups: seq<Update>, at: int, bound: nat)
    requires DeliveryLog.UniqueKeys(rows)
    requires forall i :: 0 <= i < |rows| ==> rows[i].alertId < bound
    ensures DeliveryLog.UniqueKeys(ApplyUpdates(rows, ups, at))
    ensures forall i :: 0 <= i < |rows| ==> ApplyUpdates(rows, ups, at)[i].alertId < bound
    decreases |ups|
  {
    if ups != [] {
      var init := ups[..|ups| - 1];
      var u := ups[|ups| - 1];
      RetryKeepsConsistent(rows, init, at, bound);
      DeliveryLog.UpdateKeepsInvariants(ApplyUpdates(rows, init, at), u.alertId, u.kind, u.attempt.status, u.attempt.error, u.attempt.externalId, at);
    }
  }
}
