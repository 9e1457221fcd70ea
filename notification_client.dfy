// The request objects of the notification service client: a notification
// names a template, a channel, a recipient and a payload, and carries an
// idempotency key derived from template, channel and order number when it
// is built. Sending is an HTTP call and is not part of this model.
module NotificationClient {
  import opened Wrappers
  import Text

  datatype Channel = Push | Email | Sms

  function ChannelValue(c: Channel): string
  {
    match c
    case Push => "push"
    case Email => "email"
    case Sms => "sms"
  }

  /** `Channel(s)`: the member whose value is `s`. */
  function ChannelOf(s: string): Option<Channel>
  {
    if s == "push" then Some(Push)
    else if s == "email" then Some(Email)
    else if s == "sms" then Some(Sms)
    else None
  }

  /** A payload value: a string, an integer, or the numbers of the items
      a list of items stands for. */
  datatype Value = Str(s: string) | Num(n: int) | ItemList(itemNrs: seq<string>)

  type Payload = seq<(string, Value)>

  /** `payload[key]`: the last entry with that key, as a dict keeps it. */
  function Get(p: Payload, key: string): (r: Option<Value>)
    ensures r.Some? <==> exists i :: 0 <= i < |p| && p[i].0 == key
  {
    if p == [] then None
    else if p[|p| - 1].0 == key then Some(p[|p| - 1].1)
    else Get(p[..|p| - 1], key)
  }

  datatype Notification = Notification(
    policyName: string,
    templateName: string,
    channelCode: string,
    payload: Payload,
    to: seq<(string, string)>,
    idempotencyKey: string)

  const DefaultPolicy := "default"
  const MissingOrderNr := "KeyError: 'order_nr'"
  const ListOrderNr := "order_nr holds a list"

  /** How the f-string renders the `order_nr` payload value. Python would
      render a list of items through the items' repr, which this model does
      not hold, so a list under `order_nr` is a failure here. */
  function Render(v: Value): Result<string>
  {
    match v
    case Str(s) => Success(s)
    case Num(n) => Success(Text.IntToString(n))
    case ItemList(_) => Failure(ListOrderNr)
  }

  /** `generate_idempotency_key()`. */
  function IdempotencyKey(template: string, channel: string, payload: Payload): Result<string>
  {
    match Get(payload, "order_nr")
    case None => Failure(MissingOrderNr)
    case Some(v) =>
      var nr :- Render(v);
      Success(template + "-" + channel + "-" + nr)
  }

  /** `Notification(...)`: the policy defaults to `default`, and the key
      computed at construction replaces whatever key was passed. */
  function Make(policy: Option<string>, template: string, channel: string, payload: Payload,
                to: seq<(string, string)>, supplied: Option<string>): Result<Notification>
  {
    var key :- IdempotencyKey(template, channel, payload);
    Success(Notification(policy.GetOr(DefaultPolicy), template, channel, payload, to, key))
  }

  /** `NotificationList(notifications=...)`; the tenant is the deployment's
      MP_CODE setting. */
  datatype NotificationList = NotificationList(tenantCode: string, notifications: seq<Notification>)

  // ---------------------------------------------------------------------

  /** The channel values are exactly `push`, `email` and `sms`, and
      `Channel(value)` gives the member back. */
  lemma ChannelValuesExact(s: string, c: Channel)
    ensures ChannelOf(ChannelValue(c)) == Some(c)
    ensures ChannelOf(s).Some? <==> s in {"push", "email", "sms"}
    ensures ChannelOf(s).Some? ==> ChannelValue(ChannelOf(s).value) == s
  {
  }

  /** A notification is built exactly when its payload has an `order_nr`
      that renders; its key is `{template}-{channel}-{order_nr}` whatever
      key was passed, and its policy is `default` unless one was given. */
  lemma MakeFacts(policy: Option<string>, template: string, channel: string, payload: Payload,
                  to: seq<(string, string)>, supplied: Option<string>)
    ensures Make(policy, template, channel, payload, to, supplied).Success? <==>
      Get(payload, "order_nr").Some? && !Get(payload, "order_nr").value.ItemList?
    ensures Make(policy, template, channel, payload, to, supplied).Success? ==>
      var n := Make(policy, template, channel, payload, to, supplied).value;
      n.idempotencyKey == template + "-" + channel + "-" + Render(Get(payload, "order_nr").value).value &&
      n.policyName == (if policy.Some? then policy.value else "default") &&
      n.templateName == template && n.channelCode == channel && n.payload == payload && n.to == to
  {
  }

  /** Two notifications with the same template, channel and order number
      share their key, whatever else their payloads, recipients, policies
      or passed keys hold. */
  lemma SameKey(p1: Option<string>, p2: Option<string>, template: string, channel: string,
                a: Payload, b: Payload, toA: seq<(string, string)>, toB: seq<(string, string)>,
                s1: Option<string>, s2: Option<string>)
    requires Get(a, "order_nr") == Get(b, "order_nr")
    requires Make(p1, template, channel, a, toA, s1).Success?
    ensures Make(p2, template, channel, b, toB, s2).Success?
    ensures Make(p1, template, channel, a, toA, s1).value.idempotencyKey ==
            Make(p2, template, channel, b, toB, s2).value.idempotencyKey
  {
  }
}
