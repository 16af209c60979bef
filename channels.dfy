/**
 * The channel-preference table (alert_channel_config): one row per user and channel type,
 * holding the destination, the enabled flag and the allowed time window.
 */
module Channels {
  import opened Wrappers

  /** A stored row. telegram_chat_id is a column of the table that no query here selects. */
  datatype ChannelRow = ChannelRow(
    id: nat,
    userId: int,
    channelType: string,
    phoneNumber: Option<string>,
    email: Option<string>,
    telegramUsername: Option<string>,
    telegramChatId: Option<int>,
    timeStart: Option<string>,
    timeEnd: Option<string>,
    enabled: bool)

  /**
   * A row as getAll and getConfig return it: only the selected columns. Reading
   * `telegram_chat_id` from such a row yields undefined, which is what `telegramChatId` holds.
   */
  datatype ChannelConfig = ChannelConfig(
    id: nat,
    channelType: string,
    phoneNumber: Option<string>,
    email: Option<string>,
    telegramUsername: Option<string>,
    telegramChatId: Option<int>,
    timeStart: Option<string>,
    timeEnd: Option<string>,
    enabled: bool)

  /** The fields setConfig is given. */
  datatype ChannelSettings = ChannelSettings(
    channelType: string,
    phoneNumber: Option<string>,
    email: Option<string>,
    telegramUsername: Option<string>,
    timeStart: Option<string>,
    timeEnd: Option<string>,
    enabled: bool)

  /** The SELECT column list: everything but user_id and telegram_chat_id. */
  function Project(row: ChannelRow): ChannelConfig {
    ChannelConfig(row.id, row.channelType, row.phoneNumber, row.email, row.telegramUsername,
                  None, row.timeStart, row.timeEnd, row.enabled)
  }

  predicate HasKey(row: ChannelRow, user: int, kind: string) {
    row.userId == user && row.channelType == kind
  }

  /** The table's unique key: at most one row per (user_id, channel_type). */
  ghost predicate UniqueKeys(rows: seq<ChannelRow>) {
    forall i, j :: 0 <= i < j < |rows| && rows[i].userId == rows[j].userId ==>
      rows[i].channelType != rows[j].channelType
  }

  /** `getAll(user)`: the user's rows, in table order. */
  function GetAll(rows: seq<ChannelRow>, user: int): (r: seq<ChannelConfig>)
    ensures forall c :: c in r ==> exists j :: 0 <= j < |rows| && rows[j].userId == user && c == Project(rows[j])
    ensures forall j :: 0 <= j < |rows| && rows[j].userId == user ==> Project(rows[j]) in r
    decreases |rows|
  {
    if rows == [] then []
    else
      var last := rows[|rows| - 1];
      GetAll(rows[..|rows| - 1], user) + (if last.userId == user then [Project(last)] else [])
  }

  /** The position of the first row with key (user, kind). */
  function IndexOfKey(rows: seq<ChannelRow>, user: int, kind: string): (r: Option<nat>)
    ensures r.Some? ==> r.value < |rows| && HasKey(rows[r.value], user, kind)
    ensures r.Some? ==> forall j :: 0 <= j < r.value ==> !HasKey(rows[j], user, kind)
    ensures r.None? ==> forall j :: 0 <= j < |rows| ==> !HasKey(rows[j], user, kind)
  {
    if rows == [] then None
    else if HasKey(rows[0], user, kind) then Some(0)
    else match IndexOfKey(rows[1..], user, kind)
      case None => None
      case Some(i) => Some(i + 1)
  }

  /** `getConfig(user, kind)`: `rows[0] || null`. */
  function GetConfig(rows: seq<ChannelRow>, user: int, kind: string): (r: Option<ChannelConfig>)
    ensures r.None? <==> forall j :: 0 <= j < |rows| ==> !HasKey(rows[j], user, kind)
    ensures r.Some? ==> r.value.channelType == kind
    ensures r.Some? ==> r.value.telegramChatId.None?
  {
    match IndexOfKey(rows, user, kind)
    case None => None
    case Some(i) => Some(Project(rows[i]))
  }

  lemma IndexOfKeyAt(rows: seq<ChannelRow>, user: int, kind: string, i: nat)
    requires i < |rows| && HasKey(rows[i], user, kind)
    requires forall j :: 0 <= j < i ==> !HasKey(rows[j], user, kind)
    ensures IndexOfKey(rows, user, kind) == Some(i)
  {
  }

  /** With unique keys, a row with key (user, kind) is the one getConfig finds. */
  lemma IndexOfUniqueKey(rows: seq<ChannelRow>, user: int, kind: string, i: nat)
    requires UniqueKeys(rows)
    requires i < |rows| && HasKey(rows[i], user, kind)
    ensures IndexOfKey(rows, user, kind) == Some(i)
  {
    forall j | 0 <= j < i ensures !HasKey(rows[j], user, kind) {
      assert rows[j].userId == rows[i].userId ==> rows[j].channelType != rows[i].channelType;
    }
    IndexOfKeyAt(rows, user, kind, i);
  }

  /** The ON DUPLICATE KEY UPDATE assignments; id, user, type and chat id are kept. */
  function Reconfigure(row: ChannelRow, s: ChannelSettings): ChannelRow {
    row.(phoneNumber := s.phoneNumber, email := s.email, telegramUsername := s.telegramUsername,
         timeStart := s.timeStart, timeEnd := s.timeEnd, enabled := s.enabled)
  }

  /** The INSERT branch; telegram_chat_id is not given and stays NULL. */
  function NewRow(id: nat, user: int, s: ChannelSettings): ChannelRow {
    ChannelRow(id, user, s.channelType, s.phoneNumber, s.email, s.telegramUsername, None,
               s.timeStart, s.timeEnd, s.enabled)
  }

  /** `INSERT ... ON DUPLICATE KEY UPDATE` keyed by (user, channel type). */
  function Upsert(rows: seq<ChannelRow>, nextId: nat, user: int, s: ChannelSettings): (r: seq<ChannelRow>)
    ensures |r| == if IndexOfKey(rows, user, s.channelType).Some? then |rows| else |rows| + 1
    ensures forall j :: 0 <= j < |rows| && !HasKey(rows[j], user, s.channelType) ==> r[j] == rows[j]
    ensures IndexOfKey(rows, user, s.channelType).None? ==> r[|rows|] == NewRow(nextId, user, s)
    ensures IndexOfKey(rows, user, s.channelType).Some? ==>
      var i := IndexOfKey(rows, user, s.channelType).value;
      r[i] == Reconfigure(rows[i], s) && r[i].id == rows[i].id && r[i].telegramChatId == rows[i].telegramChatId
  {
    match IndexOfKey(rows, user, s.channelType)
    case Some(i) => rows[i := Reconfigure(rows[i], s)]
    case None => rows + [NewRow(nextId, user, s)]
  }

  /** `DELETE ... WHERE user_id = user AND channel_type = kind`. */
  function Remove(rows: seq<ChannelRow>, user: int, kind: string): (r: seq<ChannelRow>)
    ensures forall row :: row in r <==> row in rows && !HasKey(row, user, kind)
    decreases |rows|
  {
    if rows == [] then []
    else
      var last := rows[|rows| - 1];
      Remove(rows[..|rows| - 1], user, kind) + (if HasKey(last, user, kind) then [] else [last])
  }

  lemma {:induction false} RemoveKeepsKeysUnique(rows: seq<ChannelRow>, user: int, kind: string)
    requires UniqueKeys(rows)
    ensures UniqueKeys(Remove(rows, user, kind))
    decreases |rows|
  {
    if rows != [] {
      var n := |rows| - 1;
      var prefix := rows[..n];
      assert UniqueKeys(prefix) by {
        forall i, j | 0 <= i < j < |prefix| && prefix[i].userId == prefix[j].userId
          ensures prefix[i].channelType != prefix[j].channelType
        {
          assert rows[i] == prefix[i] && rows[j] == prefix[j];
        }
      }
      RemoveKeepsKeysUnique(prefix, user, kind);
      var head := Remove(prefix, user, kind);
      if !HasKey(rows[n], user, kind) {
        var r := Remove(rows, user, kind);
        assert r == head + [rows[n]];
        forall i, j | 0 <= i < j < |r| && r[i].userId == r[j].userId
          ensures r[i].channelType != r[j].channelType
        {
          assert r[i] == head[i] && head[i] in head;
          if j < |head| {
            assert r[j] == head[j];
          } else {
            var p :| 0 <= p < n && prefix[p] == head[i];
            assert rows[p] == prefix[p];
          }
        }
      }
    }
  }

  /** A returned row carries exactly the settings given. */
  predicate Shows(c: ChannelConfig, s: ChannelSettings) {
    && c.channelType == s.channelType && c.phoneNumber == s.phoneNumber && c.email == s.email
    && c.telegramUsername == s.telegramUsername && c.timeStart == s.timeStart
    && c.timeEnd == s.timeEnd && c.enabled == s.enabled
  }

  /** After setConfig, getConfig for that user and type returns the supplied settings. */
  lemma SetThenGet(rows: seq<ChannelRow>, nextId: nat, user: int, s: ChannelSettings)
    ensures var c := GetConfig(Upsert(rows, nextId, user, s), user, s.channelType);
      c.Some? && Shows(c.value, s)
  {
    var rows' := Upsert(rows, nextId, user, s);
    match IndexOfKey(rows, user, s.channelType)
    case Some(i) =>
      assert forall j :: 0 <= j < i ==> rows'[j] == rows[j];
      IndexOfKeyAt(rows', user, s.channelType, i);
    case None =>
      assert forall j :: 0 <= j < |rows| ==> rows'[j] == rows[j];
      IndexOfKeyAt(rows', user, s.channelType, |rows|);
  }

  /** setConfig replaces an existing row instead of adding one, and keeps the key unique. */
  lemma UpsertKeepsOneRowPerKey(rows: seq<ChannelRow>, nextId: nat, user: int, s: ChannelSettings)
    requires UniqueKeys(rows)
    ensures UniqueKeys(Upsert(rows, nextId, user, s))
    ensures |Upsert(rows, nextId, user, s)| ==
            |rows| + (if GetConfig(rows, user, s.channelType).None? then 1 else 0)
  {
  }

  /** Other keys read the same after setConfig. */
  lemma UpsertLeavesOtherKeys(rows: seq<ChannelRow>, nextId: nat, user: int, s: ChannelSettings, user': int, kind': string)
    requires user' != user || kind' != s.channelType
    ensures GetConfig(Upsert(rows, nextId, user, s), user', kind') == GetConfig(rows, user', kind')
  {
    var rows' := Upsert(rows, nextId, user, s);
    assert forall j :: 0 <= j < |rows'| ==> (HasKey(rows'[j], user', kind') <==> j < |rows| && HasKey(rows[j], user', kind'));
    assert forall j :: 0 <= j < |rows| && HasKey(rows[j], user', kind') ==> rows'[j] == rows[j];
    var k := IndexOfKey(rows, user', kind');
    var k' := IndexOfKey(rows', user', kind');
    if k.Some? && k'.Some? {
      assert !(k.value < k'.value) && !(k'.value < k.value);
    }
  }

  /** Repeating a setConfig call changes nothing. */
  lemma UpsertIdempotent(rows: seq<ChannelRow>, nextId: nat, nextId': nat, user: int, s: ChannelSettings)
    ensures Upsert(Upsert(rows, nextId, user, s), nextId', user, s) == Upsert(rows, nextId, user, s)
  {
    var rows' := Upsert(rows, nextId, user, s);
    match IndexOfKey(rows, user, s.channelType)
    case Some(i) =>
      assert forall j :: 0 <= j < i ==> rows'[j] == rows[j];
      IndexOfKeyAt(rows', user, s.channelType, i);
    case None =>
      assert forall j :: 0 <= j < |rows| ==> rows'[j] == rows[j];
      IndexOfKeyAt(rows', user, s.channelType, |rows|);
  }

  /** After deleteConfig the key reads as null; every other key reads as before. */
  lemma RemoveDropsOnlyKey(rows: seq<ChannelRow>, user: int, kind: string, user': int, kind': string)
    requires UniqueKeys(rows)
    ensures GetConfig(Remove(rows, user, kind), user, kind).None?
    ensures user' != user || kind' != kind ==>
            GetConfig(Remove(rows, user, kind), user', kind') == GetConfig(rows, user', kind')
  {
    var rows' := Remove(rows, user, kind);
    assert forall j :: 0 <= j < |rows'| ==> rows'[j] in rows';
    if user' != user || kind' != kind {
      var k := IndexOfKey(rows, user', kind');
      var k' := IndexOfKey(rows', user', kind');
      if k.Some? {
        assert rows[k.value] in rows';
      }
      if k'.Some? {
        var row := rows'[k'.value];
        assert row in rows;
        var j :| 0 <= j < |rows| && rows[j] == row;
        IndexOfUniqueKey(rows, user', kind', j);
      }
    }
  }

  /** Rows from getAll never carry a Telegram chat id. */
  lemma GetAllHasNoChatId(rows: seq<ChannelRow>, user: int)
    ensures forall c :: c in GetAll(rows, user) ==> c.telegramChatId.None?
  {
  }

  /** A row from getAll is what getConfig returns for its own channel type. */
  lemma GetAllRowReadsBack(rows: seq<ChannelRow>, user: int, c: ChannelConfig)
    requires UniqueKeys(rows)
    requires c in GetAll(rows, user)
    ensures GetConfig(rows, user, c.channelType) == Some(c)
  {
    var j :| 0 <= j < |rows| && rows[j].userId == user && c == Project(rows[j]);
    IndexOfUniqueKey(rows, user, c.channelType, j);
  }

  /** No two configs of the sequence share a channel type. */
  ghost predicate DistinctTypes(cs: seq<ChannelConfig>) {
    forall i, j :: 0 <= i < j < |cs| ==> cs[i].channelType != cs[j].channelType
  }

  /** The rows of one user from getAll have pairwise different channel types. */
  lemma {:induction false} GetAllDistinctTypes(rows: seq<ChannelRow>, user: int)
    requires UniqueKeys(rows)
    ensures DistinctTypes(GetAll(rows, user))
    decreases |rows|
  {
    if rows != [] {
      var n := |rows| - 1;
      var prefix := rows[..n];
      assert UniqueKeys(prefix) by {
        forall i, j | 0 <= i < j < |prefix| && prefix[i].userId == prefix[j].userId
          ensures prefix[i].channelType != prefix[j].channelType
        {
          assert rows[i] == prefix[i] && rows[j] == prefix[j];
        }
      }
      GetAllDistinctTypes(prefix, user);
      var head := GetAll(prefix, user);
      if rows[n].userId == user {
        var r := GetAll(rows, user);
        assert r == head + [Project(rows[n])];
        forall i | 0 <= i < |head| ensures head[i].channelType != rows[n].channelType {
          var c := head[i];
          assert c in head;
          var j :| 0 <= j < |prefix| && prefix[j].userId == user && c == Project(prefix[j]);
          assert rows[j] == prefix[j];
        }
        forall i, j | 0 <= i < j < |r| ensures r[i].channelType != r[j].channelType {
          assert r[i] == head[i];
          if j < |head| {
            assert r[j] == head[j];
            assert head[i].channelType != head[j].channelType;
          }
        }
      } else {
        assert GetAll(rows, user) == head;
      }
    }
  }

  class ChannelStore {
    var rows: seq<ChannelRow>
    var nextId: nat

    ghost predicate Valid()
      reads this
    {
      UniqueKeys(rows) && forall j :: 0 <= j < |rows| ==> rows[j].id < nextId
    }

    constructor ()
      ensures Valid() && rows == []
    {
      rows := [];
      nextId := 1;
    }

    /** `setConfig(user, settings)`: upsert, then read the row back. */
    method SetConfig(user: int, s: ChannelSettings) returns (r: Option<ChannelConfig>)
      requires Valid()
      modifies this
      ensures Valid()
      ensures rows == Upsert(old(rows), old(nextId), user, s)
      ensures r == GetConfig(rows, user, s.channelType)
      ensures r.Some? && Shows(r.value, s)
    {
      UpsertKeepsOneRowPerKey(rows, nextId, user, s);
      SetThenGet(rows, nextId, user, s);
      var updated := Upsert(rows, nextId, user, s);
      assert forall j :: 0 <= j < |updated| ==> updated[j].id <= nextId;
      rows := updated;
      nextId := nextId + 1;
      r := GetConfig(rows, user, s.channelType);
    }

    /** `deleteConfig(user, kind)`: always reports true. */
    method DeleteConfig(user: int, kind: string) returns (ok: bool)
      requires Valid()
      modifies this
      ensures Valid()
      ensures rows == Remove(old(rows), user, kind)
      ensures ok
    {
      RemoveKeepsKeysUnique(rows, user, kind);
      var remaining := Remove(rows, user, kind);
      forall j | 0 <= j < |remaining| ensures remaining[j].id < nextId {
        assert remaining[j] in remaining;
      }
      rows := remaining;
      ok := true;
    }
  }
}
