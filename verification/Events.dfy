/** Outbox payloads, the retained topics they are published on, and the messages they leave there. */
module Events {
  import opened Wrappers

  /** Row identifiers are UUIDs in text form, so they contain no slash. */
  type Id = s: string | '/' !in s witness ""

  datatype Action = Action(kind: string, config: map<string, string>)

  datatype TriggerBody = TriggerBody(enabled: bool, condition: string, actions: seq<Action>, cooldown: int)

  datatype Placement = Placement(kind: string, pin: nat, purpose: Option<string>)

  /** A push without a body is the delete operation. `Unreadable` is a payload its processor cannot decode. */
  datatype Payload =
    | TriggerPush(device: Id, trigger: Id, body: Option<TriggerBody>)
    | PeripheralPush(device: Id, name: string, placement: Option<Placement>)
    | ConfigPush(device: Id, timezone: string)
    | Provision(device: Id, username: string, password: string)
    | Unreadable(device: Id, eventType: string)

  const TRIGGER_PUSH := "trigger.push"
  const PERIPHERAL_PUSH := "peripheral.push"
  const CONFIG_PUSH := "device.config_push"
  const PROVISION := "mqtt.provision_device"

  /** The event types with a registered processor. */
  const REGISTERED := {TRIGGER_PUSH, PERIPHERAL_PUSH, CONFIG_PUSH, PROVISION}

  function TypeOf(p: Payload): string {
    match p
    case TriggerPush(_, _, _) => TRIGGER_PUSH
    case PeripheralPush(_, _, _) => PERIPHERAL_PUSH
    case ConfigPush(_, _) => CONFIG_PUSH
    case Provision(_, _, _) => PROVISION
    case Unreadable(_, eventType) => eventType
  }

  datatype Topic =
    | TriggerTopic(device: Id, trigger: Id)
    | PeripheralTopic(device: Id, name: string)
    | ConfigTopic(device: Id)

  function TopicOf(p: Payload): Option<Topic> {
    match p
    case TriggerPush(device, trigger, _) => Some(TriggerTopic(device, trigger))
    case PeripheralPush(device, name, _) => Some(PeripheralTopic(device, name))
    case ConfigPush(device, _) => Some(ConfigTopic(device))
    case _ => None
  }

  predicate On(p: Payload, topic: Topic) {
    TopicOf(p) == Some(topic)
  }

  /** The topic string sent to the broker. */
  function Render(topic: Topic): string {
    match topic
    case TriggerTopic(device, trigger) => "fishhub/" + device + "/triggers/" + trigger
    case PeripheralTopic(device, name) => "fishhub/" + device + "/peripherals/" + name
    case ConfigTopic(device) => "fishhub/" + device + "/config"
  }

  lemma PrefixBeforeSlash(a: string, x: string, b: string, y: string)
    requires '/' !in a && '/' !in b
    requires a + "/" + x == b + "/" + y
    ensures a == b && x == y
  {
    var s := a + "/" + x;
    assert s[|a|] == '/' && s[|b|] == '/';
    assert forall k | 0 <= k < |a| :: s[k] == a[k];
    assert forall k | 0 <= k < |b| :: s[k] == b[k];
    assert |a| == |b|;
    assert a == s[..|a|] && b == s[..|b|];
    assert x == s[|a| + 1..] && y == s[|b| + 1..];
  }

  /** What follows the device segment of a topic string. */
  function Suffix(topic: Topic): string {
    match topic
    case TriggerTopic(_, trigger) => "triggers/" + trigger
    case PeripheralTopic(_, name) => "peripherals/" + name
    case ConfigTopic(_) => "config"
  }

  lemma Regrouped(a: string, b: string, c: string, d: string)
    ensures a + b + ("/" + c) + d == a + (b + "/" + (c + d))
  {
    assert a + b + ("/" + c) == a + (b + "/" + c);
    assert (b + "/" + c) + d == b + "/" + (c + d);
  }

  lemma RenderSplits(topic: Topic)
    ensures Render(topic) == "fishhub/" + (topic.device + "/" + Suffix(topic))
  {
    match topic
    case TriggerTopic(device, trigger) =>
      assert "/triggers/" == "/" + "triggers/";
      Regrouped("fishhub/", device, "triggers/", trigger);
    case PeripheralTopic(device, name) =>
      assert "/peripherals/" == "/" + "peripherals/";
      Regrouped("fishhub/", device, "peripherals/", name);
    case ConfigTopic(device) =>
      assert "/config" == "/" + "config";
      Regrouped("fishhub/", device, "config", "");
      assert "config" + "" == "config";
  }

  /** Two topics share a topic string only if they are the same topic; in particular processors never share one. */
  lemma RenderInjective(s: Topic, t: Topic)
    requires Render(s) == Render(t)
    ensures s == t
  {
    RenderSplits(s);
    RenderSplits(t);
    var s', t' := s.device + "/" + Suffix(s), t.device + "/" + Suffix(t);
    assert s' == ("fishhub/" + s')[|"fishhub/"|..] == ("fishhub/" + t')[|"fishhub/"|..] == t';
    PrefixBeforeSlash(s.device, Suffix(s), t.device, Suffix(t));
    assert Suffix(s)[0] == Suffix(t)[0];
    match s
    case TriggerTopic(_, trigger) =>
      assert trigger == Suffix(s)[|"triggers/"|..] == Suffix(t)[|"triggers/"|..];
    case PeripheralTopic(_, name) =>
      assert name == Suffix(s)[|"peripherals/"|..] == Suffix(t)[|"peripherals/"|..];
    case ConfigTopic(_) =>
  }

  datatype Message =
    | TriggerUpsert(trigger: Id, body: TriggerBody)
    | TriggerDelete(trigger: Id)
    | PeripheralMessage(device: Id, name: string, placement: Option<Placement>)
    | ConfigMessage(timezone: string)

  /** The first message the processor of `p` publishes on the topic of `p`. */
  function MessageOf(p: Payload): Message
    requires TopicOf(p).Some?
  {
    match p
    case TriggerPush(_, trigger, Some(body)) => TriggerUpsert(trigger, body)
    case TriggerPush(_, trigger, None) => TriggerDelete(trigger)
    case PeripheralPush(device, name, placement) => PeripheralMessage(device, name, placement)
    case ConfigPush(_, timezone) => ConfigMessage(timezone)
  }

  predicate IsTriggerDelete(p: Payload) {
    p.TriggerPush? && p.body.None?
  }

  /**
   * The retained state of a topic agrees with `p`: it holds the message of `p`, except that
   * after a trigger delete an empty topic agrees as well.
   */
  predicate Shows(retained: map<Topic, Message>, topic: Topic, p: Payload)
    requires On(p, topic)
  {
    if topic in retained then retained[topic] == MessageOf(p) else IsTriggerDelete(p)
  }

  // ---- The newest event on a topic --------------------------------------------------------------

  /** The position of the last payload on `topic` in `log`, or -1. */
  function Newest(log: seq<Payload>, topic: Topic): (n: int)
    ensures -1 <= n < |log|
    ensures n >= 0 ==> On(log[n], topic)
    ensures forall k | n < k < |log| :: !On(log[k], topic)
  {
    if log == [] then -1
    else if On(log[|log| - 1], topic) then |log| - 1
    else Newest(log[..|log| - 1], topic)
  }

  lemma NewestOfAppended(log: seq<Payload>, more: seq<Payload>, topic: Topic)
    ensures var n := Newest(log + more, topic);
            if Newest(more, topic) >= 0 then n == |log| + Newest(more, topic) else n == Newest(log, topic)
  {
    var n, m := Newest(log + more, topic), Newest(more, topic);
    assert forall k | 0 <= k < |more| :: (log + more)[|log| + k] == more[k];
    assert forall k | 0 <= k < |log| :: (log + more)[k] == log[k];
    if n >= |log| {
      assert On(more[n - |log|], topic);
    }
  }
}
