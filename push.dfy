/** The push subscription status (UserStatePush): the `notification_types`
    value reported for this device, decided from three dependency values. */
module UserStatePush {
  import opened Wrappers

  /** The dependency values as stored; None when the key is absent (or not of
      the right type), which `optInt` / `optBoolean` read as the default. */
  datatype DependValues = DependValues(
    subscribableStatus: Option<int>,   // default 1
    androidPermission: Option<bool>,   // default true
    userSubscribePref: Option<bool>)   // default true

  /** The PUSH_STATUS_* constants, which the base `UserState` declares. */
  datatype PushStatusCodes = PushStatusCodes(subscribed: int, noPermission: int, unsubscribe: int)

  /** The relations between the codes that `isSubscribed` relies on: only
      SUBSCRIBED is positive. */
  predicate CodesAreOrdered(codes: PushStatusCodes) {
    codes.subscribed > 0 && codes.noPermission <= 0 && codes.unsubscribe <= 0
  }

  /** `getNotificationTypes`. */
  function NotificationTypes(d: DependValues, codes: PushStatusCodes): (t: int)
    ensures t == d.subscribableStatus.GetOr(1) || t == codes.noPermission || t == codes.unsubscribe || t == codes.subscribed
  {
    var subscribableStatus := d.subscribableStatus.GetOr(1);
    if subscribableStatus < codes.unsubscribe then subscribableStatus
    else if !d.androidPermission.GetOr(true) then codes.noPermission
    else if !d.userSubscribePref.GetOr(true) then codes.unsubscribe
    else codes.subscribed
  }

  /** `isSubscribed`. */
  predicate IsSubscribed(d: DependValues, codes: PushStatusCodes) {
    NotificationTypes(d, codes) > 0
  }

  /** The decision in order of priority: a subscribable status below
      UNSUBSCRIBE is reported as it is, whatever the other two values say;
      then a missing permission; then the user's preference. */
  lemma NotificationTypesPriority(d: DependValues, codes: PushStatusCodes)
    ensures d.subscribableStatus.GetOr(1) < codes.unsubscribe ==>
      forall p, u :: NotificationTypes(d.(androidPermission := p, userSubscribePref := u), codes) == d.subscribableStatus.GetOr(1)
    ensures d.subscribableStatus.GetOr(1) >= codes.unsubscribe && d.androidPermission == Some(false) ==>
      forall u :: NotificationTypes(d.(userSubscribePref := u), codes) == codes.noPermission
    ensures d.subscribableStatus.GetOr(1) >= codes.unsubscribe && d.androidPermission != Some(false) ==>
      NotificationTypes(d, codes) == if d.userSubscribePref == Some(false) then codes.unsubscribe else codes.subscribed
  {
  }

  /** With nothing stored the device counts as subscribed whenever
      UNSUBSCRIBE is at most 1. */
  lemma DefaultsSubscribe(codes: PushStatusCodes)
    requires codes.unsubscribe <= 1
    ensures NotificationTypes(DependValues(None, None, None), codes) == codes.subscribed
  {
  }

  /** Subscribed exactly when the subscribable status is not below
      UNSUBSCRIBE, permission is granted and the user has not opted out. */
  lemma IsSubscribedIff(d: DependValues, codes: PushStatusCodes)
    requires CodesAreOrdered(codes)
    ensures IsSubscribed(d, codes) <==>
      && d.subscribableStatus.GetOr(1) >= codes.unsubscribe
      && d.androidPermission.GetOr(true)
      && d.userSubscribePref.GetOr(true)
  {
  }

  /** A value of a `syncValues` JSON object. */
  datatype JsonValue = JsonInt(n: int) | JsonBool(b: bool) | JsonString(s: string)

  const NOTIFICATION_TYPES_KEY := "notification_types"

  class PushState {
    var dependValues: DependValues
    var syncValues: map<string, JsonValue>
    const codes: PushStatusCodes

    constructor (d: DependValues, sync: map<string, JsonValue>, c: PushStatusCodes)
      ensures dependValues == d && syncValues == sync && codes == c
    {
      dependValues, syncValues, codes := d, sync, c;
    }

    /** `addDependFields`: puts the computed `notification_types` and
        changes no other key. */
    method AddDependFields()
      modifies this`syncValues
      ensures syncValues == old(syncValues)[NOTIFICATION_TYPES_KEY := JsonInt(NotificationTypes(dependValues, codes))]
      ensures forall k :: k in old(syncValues) && k != NOTIFICATION_TYPES_KEY ==> k in syncValues && syncValues[k] == old(syncValues)[k]
    {
      syncValues := syncValues[NOTIFICATION_TYPES_KEY := JsonInt(NotificationTypes(dependValues, codes))];
    }
  }
}
