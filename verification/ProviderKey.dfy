/**
 Provider idempotency keys (services/payment-service/internal/payment/psp_key.go) and a provider that
 is idempotent on them (internal/psp/mock.go): why a crashed, reaped and retried payment charges once.
 */
module ProviderKey {
  import opened Basics

  // ----- length-prefixed framing

  predicate IsDigit(c: char) {
    '0' <= c <= '9'
  }

  function Digit(d: nat): char
    requires d < 10
  {
    '0' + d as char
  }

  /** A byte count in decimal, as %d prints it. */
  function Decimal(n: nat): (s: string)
    ensures s != [] && forall i :: 0 <= i < |s| ==> IsDigit(s[i])
  {
    if n < 10 then [Digit(n)] else Decimal(n / 10) + [Digit(n % 10)]
  }

  function Value(s: string): nat
    requires forall i :: 0 <= i < |s| ==> IsDigit(s[i])
  {
    if s == [] then 0
    else
      assert IsDigit(s[|s| - 1]);
      10 * Value(s[..|s| - 1]) + (s[|s| - 1] - '0') as nat
  }

  lemma {:induction false} DecimalRoundTrip(n: nat)
    ensures Value(Decimal(n)) == n
  {
    var s := Decimal(n);
    if n < 10 {
      assert s[..0] == [];
    } else {
      DecimalRoundTrip(n / 10);
      assert s[..|s| - 1] == Decimal(n / 10);
    }
  }

  function Frame(field: string): string {
    Decimal(|field|) + ":" + field
  }

  function Frames(fields: seq<string>): string {
    if fields == [] then "" else Frame(fields[0]) + Frames(fields[1..])
  }

  /** The digits before the first colon are the same, so the lengths are, so the fields are. */
  lemma FrameSplits(f: string, x: string, g: string, y: string)
    requires Frame(f) + x == Frame(g) + y
    ensures f == g && x == y
  {
    var a, b := Decimal(|f|), Decimal(|g|);
    var s := Frame(f) + x;
    assert s[|a|] == ':' && s[|b|] == ':';
    assert forall i :: 0 <= i < |a| ==> s[i] == a[i];
    assert forall i :: 0 <= i < |b| ==> s[i] == b[i];
    assert |a| == |b|;
    assert a == s[..|a|] == b;
    DecimalRoundTrip(|f|);
    DecimalRoundTrip(|g|);
    var n := |a| + 1;
    assert s[n..n + |f|] == f && s[n..n + |g|] == g;
    assert s[n + |f|..] == x && s[n + |g|..] == y;
  }

  /** The framing is uniquely decodable, whatever the fields contain. */
  lemma {:induction false} FramesInjective(fs: seq<string>, gs: seq<string>)
    requires Frames(fs) == Frames(gs)
    ensures fs == gs
    decreases |fs|
  {
    if fs != [] && gs != [] {
      FrameSplits(fs[0], Frames(fs[1..]), gs[0], Frames(gs[1..]));
      FramesInjective(fs[1..], gs[1..]);
    }
  }

  // ----- Derive

  datatype Operation = OpAuthorize | OpCapture | OpVoid | OpRefund

  function Name(op: Operation): string {
    match op
    case OpAuthorize => "authorize"
    case OpCapture => "capture"
    case OpVoid => "void"
    case OpRefund => "refund"
  }

  lemma NamesDiffer(a: Operation, b: Operation)
    requires Name(a) == Name(b)
    ensures a == b
  {
    assert |Name(OpAuthorize)| == 9 && |Name(OpCapture)| == 7 && |Name(OpVoid)| == 4 && |Name(OpRefund)| == 6;
  }

  type Key = nat

  /** The keyed hash, cut to 128 bits: taken to be collision free. */
  ghost predicate CollisionFree(mac: string -> Key) {
    forall x, y :: mac(x) == mac(y) ==> x == y
  }

  function Derive(mac: string -> Key, op: Operation, orderId: string, clientKey: string): Option<Key> {
    if orderId == "" || clientKey == "" then None else Some(mac(Frames([Name(op), orderId, clientKey])))
  }

  function DeriveRefund(mac: string -> Key, orderId: string, refundId: string): Option<Key> {
    if refundId == "" then None else Derive(mac, OpRefund, orderId, refundId)
  }

  /** Two operations share a provider key exactly when they are the same logical operation. */
  lemma KeysDistinguish(mac: string -> Key, op: Operation, order: string, key: string, op': Operation, order': string,
      key': string)
    requires CollisionFree(mac) && Derive(mac, op, order, key).Some? && Derive(mac, op', order', key').Some?
    ensures Derive(mac, op, order, key) == Derive(mac, op', order', key') <==>
      op == op' && order == order' && key == key'
  {
    var fs, gs := [Name(op), order, key], [Name(op'), order', key'];
    if mac(Frames(fs)) == mac(Frames(gs)) {
      FramesInjective(fs, gs);
      assert fs[0] == gs[0] && fs[1] == gs[1] && fs[2] == gs[2];
      NamesDiffer(op, op');
    }
  }

  /** Refunds are told apart by order and refund id, and none shares a key with another kind of operation. */
  lemma RefundKeysDistinguish(mac: string -> Key, order: string, refund: string, op: Operation, order': string,
      key': string)
    requires CollisionFree(mac)
    ensures DeriveRefund(mac, order, refund).None? <==> order == "" || refund == ""
    ensures DeriveRefund(mac, order, refund).Some? && Derive(mac, op, order', key').Some? ==>
      (DeriveRefund(mac, order, refund) == Derive(mac, op, order', key') <==>
        op == OpRefund && order == order' && refund == key')
  {
    if DeriveRefund(mac, order, refund).Some? && Derive(mac, op, order', key').Some? {
      KeysDistinguish(mac, OpRefund, order, refund, op, order', key');
    }
  }

  // ----- the provider

  datatype Fate = Approved | Declined | Unknown

  /** `results` is the first outcome under each key, `charges` how often money moved under it. */
  datatype Provider = Provider(results: map<Key, Fate>, charges: map<Key, nat>)

  function ChargeCount(p: Provider, k: Key): nat {
    if k in p.charges then p.charges[k] else 0
  }

  /** How often an authorisation with this outcome moves money: once, unless it was declined. */
  function Moves(f: Fate): nat {
    match f case Approved => 1 case Declined => 0 case Unknown => 1
  }

  /** Replays a known key; otherwise the key alone decides, and everything but a decline moves money. */
  function Authorize(p: Provider, k: Key, roll: Key -> Fate): (Provider, Fate) {
    if k in p.results then (p, p.results[k])
    else
      (Provider(p.results[k := roll(k)],
                if roll(k) == Declined then p.charges else p.charges[k := ChargeCount(p, k) + 1]), roll(k))
  }

  function VoidCharge(p: Provider, k: Key): Provider {
    if ChargeCount(p, k) > 0 then p.(charges := p.charges[k := ChargeCount(p, k) - 1]) else p
  }

  class MockProvider {
    var results: map<Key, Fate>
    var charges: map<Key, nat>

    function State(): (p: Provider)
      reads this
    {
      Provider(results, charges)
    }

    constructor ()
      ensures State() == Provider(map[], map[])
    {
      results, charges := map[], map[];
    }

    method AuthorizeCall(k: Key, roll: Key -> Fate) returns (f: Fate)
      modifies this
      ensures (State(), f) == Authorize(old(State()), k, roll)
      ensures k in old(results) ==> f == old(results)[k] && State() == old(State())
      ensures k !in old(results) ==> f == roll(k) && results == old(results)[k := roll(k)]
      ensures k !in old(results) ==> ChargeCount(State(), k) == old(ChargeCount(State(), k)) + Moves(roll(k))
      ensures forall q :: q != k ==> ChargeCount(State(), q) == old(ChargeCount(State(), q))
    {
      if k in results { return results[k]; }
      f := roll(k);
      if f != Declined { charges := charges[k := (if k in charges then charges[k] else 0) + 1]; }
      results := results[k := f];
    }

    method VoidCall(k: Key)
      modifies this
      ensures State() == VoidCharge(old(State()), k)
      ensures results == old(results)
      ensures ChargeCount(State(), k) == Max(old(ChargeCount(State(), k)) - 1, 0)
      ensures forall q :: q != k ==> ChargeCount(State(), q) == old(ChargeCount(State(), q))
    {
      var n := if k in charges then charges[k] else 0;
      if n > 0 { charges := charges[k := n - 1]; }
    }
  }

  /** A call that reaches the provider: any attempt, by any pod, before or after any crash or reaping. */
  datatype Call = Auth(orderId: string, clientKey: string) | Cancel(orderId: string, clientKey: string)

  /** Capture and refund do not touch the charge count, so they need no call here. */
  function Serve(p: Provider, mac: string -> Key, roll: Key -> Fate, c: Call): Provider {
    match c
    case Auth(o, k) =>
      var key := Derive(mac, OpAuthorize, o, k);
      if key.None? then p else Authorize(p, key.value, roll).0
    case Cancel(o, k) =>
      var key := Derive(mac, OpVoid, o, k);
      if key.None? then p else VoidCharge(p, key.value)
  }

  function ServeAll(mac: string -> Key, roll: Key -> Fate, calls: seq<Call>): Provider {
    if calls == [] then Provider(map[], map[])
      else Serve(ServeAll(mac, roll, calls[..|calls| - 1]), mac, roll, calls[|calls| - 1])
  }

  /** A key has at most one charge, and only an authorisation's key has any. */
  ghost predicate ChargedOnce(p: Provider, mac: string -> Key) {
    forall k :: k in p.charges && p.charges[k] > 0 ==>
      p.charges[k] == 1 && k in p.results && exists o, c :: Derive(mac, OpAuthorize, o, c) == Some(k)
  }

  lemma VoidKeyNeverCharged(p: Provider, mac: string -> Key, orderId: string, clientKey: string)
    requires CollisionFree(mac) && ChargedOnce(p, mac) && Derive(mac, OpVoid, orderId, clientKey).Some?
    ensures ChargeCount(p, Derive(mac, OpVoid, orderId, clientKey).value) == 0
  {
    var k := Derive(mac, OpVoid, orderId, clientKey).value;
    if k in p.charges && p.charges[k] > 0 {
      var o, c :| Derive(mac, OpAuthorize, o, c) == Some(k);
      KeysDistinguish(mac, OpAuthorize, o, c, OpVoid, orderId, clientKey);
    }
  }

  lemma {:induction false} ServeAllCharges(mac: string -> Key, roll: Key -> Fate, calls: seq<Call>)
    requires CollisionFree(mac)
    ensures ChargedOnce(ServeAll(mac, roll, calls), mac)
    decreases |calls|
  {
    if calls != [] {
      var p, c := ServeAll(mac, roll, calls[..|calls| - 1]), calls[|calls| - 1];
      ServeAllCharges(mac, roll, calls[..|calls| - 1]);
      match c
      case Auth(o, k) =>
      case Cancel(o, k) =>
        if Derive(mac, OpVoid, o, k).Some? { VoidKeyNeverCharged(p, mac, o, k); }
    }
  }

  /** However often one payment is authorised, over crashes, reaped keys and retries, money moves at most once. */
  lemma AtMostOneCharge(mac: string -> Key, roll: Key -> Fate, calls: seq<Call>, orderId: string, clientKey: string)
    requires CollisionFree(mac) && Derive(mac, OpAuthorize, orderId, clientKey).Some?
    ensures ChargeCount(ServeAll(mac, roll, calls), Derive(mac, OpAuthorize, orderId, clientKey).value) <= 1
  {
    ServeAllCharges(mac, roll, calls);
  }

  /** Only an authorisation that was served has a result, and the result is the key's own. */
  lemma {:induction false} ResultsAreServed(mac: string -> Key, roll: Key -> Fate, calls: seq<Call>, orderId: string,
      clientKey: string)
    requires CollisionFree(mac) && Derive(mac, OpAuthorize, orderId, clientKey).Some?
    ensures var p, k := ServeAll(mac, roll, calls), Derive(mac, OpAuthorize, orderId, clientKey).value;
      && (k in p.results <==> Auth(orderId, clientKey) in calls)
      && (k in p.results ==> p.results[k] == roll(k))
      && ChargeCount(p, k) == (if k in p.results then Moves(roll(k)) else 0)
    decreases |calls|
  {
    var k := Derive(mac, OpAuthorize, orderId, clientKey).value;
    if calls != [] {
      var n := |calls| - 1;
      assert calls == calls[..n] + [calls[n]];
      ResultsAreServed(mac, roll, calls[..n], orderId, clientKey);
      match calls[n]
      case Auth(o, c) =>
        if Derive(mac, OpAuthorize, o, c).Some? {
          KeysDistinguish(mac, OpAuthorize, o, c, OpAuthorize, orderId, clientKey);
        }
      case Cancel(o, c) =>
        if Derive(mac, OpVoid, o, c).Some? { KeysDistinguish(mac, OpVoid, o, c, OpAuthorize, orderId, clientKey); }
    }
  }

  /**
   Money moves under an authorisation's key exactly once if it was ever served and was not declined, and otherwise
   never.
   */
  lemma ChargedExactly(mac: string -> Key, roll: Key -> Fate, calls: seq<Call>, orderId: string, clientKey: string)
    requires CollisionFree(mac) && Derive(mac, OpAuthorize, orderId, clientKey).Some?
    ensures var k := Derive(mac, OpAuthorize, orderId, clientKey).value;
      ChargeCount(ServeAll(mac, roll, calls), k) ==
        if Auth(orderId, clientKey) in calls && roll(k) != Declined then 1 else 0
  {
    ResultsAreServed(mac, roll, calls, orderId, clientKey);
  }

  /** The mock's Void is meant to undo the charge; under derived keys it never finds one to undo. */
  lemma VoidUndoesNothing(mac: string -> Key, roll: Key -> Fate, calls: seq<Call>, orderId: string, clientKey: string)
    requires CollisionFree(mac)
    ensures ServeAll(mac, roll, calls + [Cancel(orderId, clientKey)]) == ServeAll(mac, roll, calls)
  {
    var more := calls + [Cancel(orderId, clientKey)];
    assert more[..|calls|] == calls;
    ServeAllCharges(mac, roll, calls);
    if Derive(mac, OpVoid, orderId, clientKey).Some? {
      VoidKeyNeverCharged(ServeAll(mac, roll, calls), mac, orderId, clientKey);
    }
  }
}
