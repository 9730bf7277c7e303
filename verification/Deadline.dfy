// The scope lease: bounded_deadline() of the plugin, and the guardian's request it bounds.
module Deadline {
  import opened Words

  const INT64_MAX: int := 0x7fff_ffff_ffff_ffff
  const MAXIMUM: int := 250_000_000   // nanoseconds

  // Zero is a refusal. All times are nanoseconds of one monotonic clock.
  function BoundedDeadline(now: int, absolute: int, leaseMs: int): int {
    if now < 0 || now > INT64_MAX - MAXIMUM || leaseMs < 1 || leaseMs > 250 || absolute <= now
      || absolute - now > MAXIMUM
    then 0
    else if absolute < now + leaseMs * 1_000_000 then absolute else now + leaseMs * 1_000_000
  }

  // A granted lease ends strictly later than now, never after the absolute time, and within
  // 250 ms; it is granted exactly when the request is in range.
  lemma LeaseIsBounded(now: int, absolute: int, leaseMs: int)
    ensures var expiry := BoundedDeadline(now, absolute, leaseMs);
      && (expiry != 0 <==>
            0 <= now <= 0x7fff_ffff_ffff_ffff - 250_000_000 && 1 <= leaseMs <= 250
            && now < absolute <= now + 250_000_000)
      && (expiry != 0 ==>
            now < expiry <= absolute && expiry <= now + leaseMs * 1_000_000 <= now + 250_000_000
            && (expiry == absolute || expiry == now + leaseMs * 1_000_000))
  {}

  // scope_bind(): the guardian asks, at its microsecond clock, for a lease up to its own
  // deadline. What it sends, or nothing when it refuses locally.
  datatype Request = NoRequest | Request(leaseMs: nat, absoluteNs: nat)

  function Ask(nowUs: nat, deadlineUs: nat): Request {
    if deadlineUs <= nowUs || deadlineUs - nowUs > 250000 || (deadlineUs - nowUs) / 1000 == 0 then NoRequest
    else Request((deadlineUs - nowUs) / 1000, deadlineUs * 1000 % TWO64)   // unsigned 64-bit product
  }

  // The guardian reads nowUs from the clock at sentNs; the plugin handles the request later,
  // at receivedNs of the same clock, which is an int64. Nothing overflows on the way, the
  // plugin's expiry never outlives the guardian's deadline, and it loses less than a
  // millisecond against it. The plugin refuses only in the last 250 ms of the clock's range.
  lemma LeaseLosesUnderOneMillisecond(sentNs: nat, receivedNs: nat, deadlineUs: nat)
    requires sentNs <= receivedNs <= INT64_MAX && receivedNs < deadlineUs * 1000
    requires Ask(sentNs / 1000, deadlineUs).Request?
    ensures var r := Ask(sentNs / 1000, deadlineUs);
            var expiry := BoundedDeadline(receivedNs, r.absoluteNs, r.leaseMs);
      && r.absoluteNs == deadlineUs * 1000 && 1 <= r.leaseMs <= 250
      && (expiry != 0 <==> receivedNs <= INT64_MAX - MAXIMUM)
      && (expiry != 0 ==> (deadlineUs - 999) * 1000 <= expiry <= deadlineUs * 1000)
  {
    var nowUs := sentNs / 1000;
    assert deadlineUs - nowUs - 999 <= (deadlineUs - nowUs) / 1000 * 1000 <= deadlineUs - nowUs;
  }

  // A request is sent exactly when at least one whole millisecond, and at most 250, remain.
  lemma AsksWhenAMillisecondRemains(nowUs: nat, deadlineUs: nat)
    ensures Ask(nowUs, deadlineUs).Request? <==> nowUs + 1000 <= deadlineUs <= nowUs + 250000
  {}
}
