/** Peripheral addresses of the form kind-pin/measurement: how they are built, parsed back and matched. */
module Addressing {
  import opened Wrappers
  import opened Text

  const UNIT_LOOKUP: map<string, string> := map["ds18b20/temperature" := "Cel", "ph/ph" := ""]

  /** The kind-pin name of a peripheral, used in topics and as a prefix of field names. */
  function KindPin(kind: string, pin: int): string {
    kind + "-" + Decimal(pin)
  }

  function Address(kind: string, pin: int, measurement: string): string {
    KindPin(kind, pin) + "/" + measurement
  }

  /** The kind in a kind-pin name: everything before its last dash. */
  function KindOf(kindPin: string): string {
    var dash := LastIndexByte(kindPin, '-');
    if dash < 0 then kindPin else kindPin[..dash]
  }

  /** The table key that UnitFor derives from an address, if the address has a slash at all. */
  function UnitKey(peripheral: string): Option<string> {
    var slash := IndexByte(peripheral, '/');
    if slash < 0 then None
    else
      var measurement := peripheral[slash + 1..];
      Some(KindOf(peripheral[..slash]) + "/" + measurement)
  }

  function UnitFor(peripheral: string): (string, bool) {
    match UnitKey(peripheral)
    case None => ("", false)
    case Some(key) => if key in UNIT_LOOKUP then (UNIT_LOOKUP[key], true) else ("", false)
  }

  lemma UnitKeyAtFirstSlash(kindPin: string, measurement: string)
    requires '/' !in kindPin
    ensures UnitKey(kindPin + "/" + measurement) == Some(KindOf(kindPin) + "/" + measurement)
  {
    var address := kindPin + "/" + measurement;
    assert address == kindPin + ['/'] + measurement;
    FirstCut(kindPin, '/', measurement);
    assert address[..|kindPin|] == kindPin && address[|kindPin| + 1..] == measurement;
  }

  lemma KindOfKindPin(kind: string, pin: int)
    ensures KindOf(KindPin(kind, pin)) == if pin >= 0 then kind else kind + "-"
  {
    var kindPin := KindPin(kind, pin);
    if pin >= 0 {
      assert kindPin == kind + ['-'] + Decimal(pin);
      LastCut(kind, '-', Decimal(pin));
      assert kindPin[..|kind|] == kind;
    } else {
      assert kindPin == (kind + "-") + ['-'] + NatToString(-pin);
      LastCut(kind + "-", '-', NatToString(-pin));
      assert kindPin[..|kind + "-"|] == kind + "-";
    }
  }

  /** Cutting a kind at an inner slash loses either nothing before the slash or a dash, so the key differs. */
  lemma CutKindDiffers(before: string, after: string, suffix: string, measurement: string)
    requires |suffix| > 0
    ensures KindOf(before) + "/" + (after + suffix + "/" + measurement) != before + "/" + after + "/" + measurement
  {
    var dash := LastIndexByte(before, '-');
    var key := KindOf(before) + "/" + (after + suffix + "/" + measurement);
    var wanted := before + "/" + after + "/" + measurement;
    if dash < 0 {
      assert |key| > |wanted|;
    } else {
      assert |KindOf(before)| == dash;
      assert key[dash] == '/';
      assert wanted[dash] == before[dash];
    }
  }

  lemma SlashedAddress(before: string, after: string, dash: string, pin: string, measurement: string)
    ensures before + "/" + after + dash + pin + "/" + measurement == before + "/" + (after + (dash + pin) + "/" + measurement)
  {
    assert before + "/" + after + dash + pin == before + "/" + (after + (dash + pin));
    assert before + "/" + (after + (dash + pin)) + "/" + measurement == before + "/" + ((after + (dash + pin)) + "/" + measurement);
  }

  lemma KeyOfSlashedKind(kind: string, pin: int, measurement: string)
    requires '/' in kind
    ensures UnitKey(Address(kind, pin, measurement)) != Some(kind + "/" + measurement)
  {
    var s := IndexByte(kind, '/');
    var before, after := kind[..s], kind[s + 1..];
    var suffix := "-" + Decimal(pin);
    assert kind == before + "/" + after;
    SlashedAddress(before, after, "-", Decimal(pin), measurement);
    UnitKeyAtFirstSlash(before, after + suffix + "/" + measurement);
    CutKindDiffers(before, after, suffix, measurement);
  }

  /** An address is looked up under its own kind exactly when the kind has no slash and the pin is not negative. */
  lemma AddressRoundTrip(kind: string, pin: int, measurement: string)
    ensures UnitKey(Address(kind, pin, measurement)) == Some(kind + "/" + measurement)
       <==> '/' !in kind && pin >= 0
  {
    if '/' in kind {
      KeyOfSlashedKind(kind, pin, measurement);
    } else {
      UnitKeyAtFirstSlash(KindPin(kind, pin), measurement);
      KindOfKindPin(kind, pin);
      if pin < 0 {
        assert |kind + "-" + "/" + measurement| != |kind + "/" + measurement|;
      }
    }
  }

  /** The unit of a field is the one listed for its peripheral's kind and its measurement, also if the kind has dashes. */
  lemma UnitOfAddress(kind: string, pin: nat, measurement: string)
    requires '/' !in kind
    ensures var key := kind + "/" + measurement;
            UnitFor(Address(kind, pin, measurement)) == if key in UNIT_LOOKUP then (UNIT_LOOKUP[key], true) else ("", false)
  {
    AddressRoundTrip(kind, pin, measurement);
  }

  /** Distinct kinds or non-negative pins give distinct kind-pin names, even when a kind contains dashes. */
  lemma KindPinInjective(kind: string, pin: nat, kind': string, pin': nat)
    requires KindPin(kind, pin) == KindPin(kind', pin')
    ensures kind == kind' && pin == pin'
  {
    var name := KindPin(kind, pin);
    assert name == kind + ['-'] + Decimal(pin) == kind' + ['-'] + Decimal(pin');
    LastCut(kind, '-', Decimal(pin));
    LastCut(kind', '-', Decimal(pin'));
    assert name[..|kind|] == kind && name[..|kind'|] == kind';
    assert name[|kind| + 1..] == NatToString(pin) && name[|kind'| + 1..] == NatToString(pin');
    NatToStringInjective(pin, pin');
  }

  /** Whether the field `key` belongs to the namespace `ns`: it extends ns/ by at least one character. */
  predicate InNamespace(key: string, ns: string) {
    var prefix := ns + "/";
    |key| > |prefix| && key[..|prefix|] == prefix
  }

  /** The fields of a namespace are its addresses with a measurement of at least one character. */
  lemma NamespaceLaw(key: string, kind: string, pin: int)
    ensures InNamespace(key, KindPin(kind, pin)) <==> exists measurement :: measurement != "" && key == Address(kind, pin, measurement)
  {
    var prefix := KindPin(kind, pin) + "/";
    if InNamespace(key, KindPin(kind, pin)) {
      assert key == prefix + key[|prefix|..];
      assert key[|prefix|..] != "" && key == Address(kind, pin, key[|prefix|..]);
    }
    if measurement :| measurement != "" && key == Address(kind, pin, measurement) {
      assert key[..|prefix|] == prefix;
    }
  }

  /** No field belongs to two namespaces, provided that no kind contains a slash. */
  lemma NamespacesDisjoint(key: string, kind: string, pin: nat, kind': string, pin': nat)
    requires '/' !in kind && '/' !in kind'
    requires InNamespace(key, KindPin(kind, pin)) && InNamespace(key, KindPin(kind', pin'))
    ensures kind == kind' && pin == pin'
  {
    var ns, ns' := KindPin(kind, pin), KindPin(kind', pin');
    assert key == ns + ['/'] + key[|ns| + 1..];
    assert key == ns' + ['/'] + key[|ns'| + 1..];
    FirstCut(ns, '/', key[|ns| + 1..]);
    FirstCut(ns', '/', key[|ns'| + 1..]);
    assert ns == key[..|ns|] == ns';
    KindPinInjective(kind, pin, kind', pin');
  }
}
