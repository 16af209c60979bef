/**
 * The alert table as the delivery engine uses it: create an alert, look it up, mark it
 * delivered. Alerts are never deleted here.
 */
module Alerts {
  import opened Wrappers

  datatype Alert = Alert(
    id: nat,
    userId: int,
    text: string,
    hiveId: Option<string>,
    metricType: string,
    metricValue: real,
    ruleId: Option<int>,
    delivered: bool)

  class AlertStore {
    var alerts: map<nat, Alert>
    /** The id the next insert gets (AUTO_INCREMENT). */
    var nextId: nat

    ghost predicate Valid()
      reads this
    {
      forall id :: id in alerts ==> id < nextId && alerts[id].id == id
    }

    constructor ()
      ensures Valid() && alerts == map[]
    {
      alerts := map[];
      nextId := 1;
    }

    /** `createAlert`: insert an undelivered alert under a fresh id. */
    method CreateAlert(userId: int, text: string, hiveId: Option<string>, metricType: string,
                       metricValue: real, ruleId: Option<int>) returns (id: nat)
      requires Valid()
      modifies this
      ensures Valid()
      ensures id == old(nextId) && id !in old(alerts) && nextId == id + 1
      ensures alerts == old(alerts)[id := Alert(id, userId, text, hiveId, metricType, metricValue, ruleId, false)]
    {
      id := nextId;
      alerts := alerts[id := Alert(id, userId, text, hiveId, metricType, metricValue, ruleId, false)];
      nextId := nextId + 1;
    }

    /** `markAsDelivered`: set the delivered flag of the alert, if it exists. */
    method MarkAsDelivered(id: nat)
      requires Valid()
      modifies this
      ensures Valid() && nextId == old(nextId)
      ensures alerts == if id in old(alerts) then old(alerts)[id := old(alerts)[id].(delivered := true)] else old(alerts)
    {
      if id in alerts {
        alerts := alerts[id := alerts[id].(delivered := true)];
      }
    }
  }
}
