/** Validity windows of certificates and of the authorities that sign them
    (multicluster/bootstrap/certificates.go).  Times and durations are in nanoseconds.

    Creating a certificate keeps whole seconds of its window (section 4.1.2.5 of RFC 5280), and an
    authority made here checks against the window read back from its own certificate. */
module Certificates {
  import opened Wrappers

  const SECOND: int := 1_000_000_000
  const HOUR: int := 3600 * SECOND
  const YEAR: int := 365 * 24 * HOUR

  const DEFAULT_GRACE: int := HOUR
  const DEFAULT_CA_LIFETIME: int := 10 * YEAR
  const DEFAULT_INTERMEDIATE_LIFETIME: int := 5 * YEAR
  const DEFAULT_CERTIFICATE_LIFETIME: int := YEAR

  datatype Window = Window(notBefore: int, notAfter: int)

  /** An authority: its certificate's window and the durations it issues with. */
  datatype Authority = Authority(window: Window, grace: int, certificateExpiration: int, intermediateExpiration: int)

  datatype Error = NoNames | NotYetValid | ExpiresTooSoon

  datatype Issued<+T> = Issued(value: T) | Refused(error: Error)

  /** The largest whole second not after `t`. */
  function Truncate(t: int): (s: int)
    ensures s % SECOND == 0 && s <= t < s + SECOND
  {
    t - t % SECOND
  }

  function Stored(notBefore: int, notAfter: int): Window { Window(Truncate(notBefore), Truncate(notAfter)) }

  predicate Whole(w: Window) { w.notBefore % SECOND == 0 && w.notAfter % SECOND == 0 }

  predicate Inside(inner: Window, outer: Window) {
    outer.notBefore <= inner.notBefore && inner.notAfter <= outer.notAfter
  }

  /** Both Sign and Intermediate refuse a window the authority's own does not cover. */
  function Refusal(ca: Authority, notBefore: int, notAfter: int): Option<Error> {
    if ca.window.notBefore > notBefore then Some(NotYetValid)
    else if ca.window.notAfter < notAfter then Some(ExpiresTooSoon)
    else None
  }

  function Sign(ca: Authority, names: seq<string>, now: int): Issued<Window> {
    if names == [] then Refused(NoNames)
    else
      match Refusal(ca, now - ca.grace, now + ca.certificateExpiration)
      case Some(e) => Refused(e)
      case None => Issued(Stored(now - ca.grace, now + ca.certificateExpiration))
  }

  /** Checks with the configured lifetime, but issues from a second clock reading to 365 days after
      a third.  The new authority's grace period is left at zero. */
  function Intermediate(ca: Authority, now: int, start: int, end: int): Issued<Authority> {
    match Refusal(ca, now - ca.grace, now + ca.intermediateExpiration)
    case Some(e) => Refused(e)
    case None => Issued(Authority(Stored(start, end + YEAR), 0, ca.certificateExpiration, ca.intermediateExpiration))
  }

  function OrDefault(configured: int, default: int): int { if configured == 0 then default else configured }

  class CAConfiguration {
    var notBeforeGracePeriod: int
    var caLifetime: int
    var intermediateCALifetime: int
    var certificateLifetime: int

    constructor (grace: int, ca: int, intermediate: int, certificate: int)
      ensures notBeforeGracePeriod == grace && caLifetime == ca
      ensures intermediateCALifetime == intermediate && certificateLifetime == certificate
    {
      notBeforeGracePeriod, caLifetime := grace, ca;
      intermediateCALifetime, certificateLifetime := intermediate, certificate;
    }

    /** Each field that was zero has its default, and the others are as they were. */
    twostate predicate Defaulted()
      reads this
    {
      && caLifetime == OrDefault(old(caLifetime), DEFAULT_CA_LIFETIME)
      && intermediateCALifetime == OrDefault(old(intermediateCALifetime), DEFAULT_INTERMEDIATE_LIFETIME)
      && certificateLifetime == OrDefault(old(certificateLifetime), DEFAULT_CERTIFICATE_LIFETIME)
      && notBeforeGracePeriod == OrDefault(old(notBeforeGracePeriod), DEFAULT_GRACE)
    }

    /** Fills each field left at zero with its default, and keeps the others. */
    method FillDefaults()
      modifies this
      ensures Defaulted()
    {
      if caLifetime == 0 {
        caLifetime := DEFAULT_CA_LIFETIME;
      }
      if intermediateCALifetime == 0 {
        intermediateCALifetime := DEFAULT_INTERMEDIATE_LIFETIME;
      }
      if certificateLifetime == 0 {
        certificateLifetime := DEFAULT_CERTIFICATE_LIFETIME;
      }
      if notBeforeGracePeriod == 0 {
        notBeforeGracePeriod := DEFAULT_GRACE;
      }
    }
  }

  method GenerateCA(configuration: CAConfiguration, now: int) returns (ca: Authority)
    modifies configuration
    ensures ca == Authority(Stored(now - configuration.notBeforeGracePeriod, now + configuration.caLifetime),
                            configuration.notBeforeGracePeriod, configuration.certificateLifetime,
                            configuration.intermediateCALifetime)
    ensures configuration.Defaulted()
    ensures ca.grace != 0 && Whole(ca.window)
  {
    configuration.FillDefaults();
    ca := Authority(Stored(now - configuration.notBeforeGracePeriod, now + configuration.caLifetime),
                    configuration.notBeforeGracePeriod, configuration.certificateLifetime,
                    configuration.intermediateCALifetime);
  }

  /** Loads an authority from a certificate, whose window is in whole seconds. */
  method LoadCA(configuration: CAConfiguration, window: Window) returns (ca: Authority)
    requires Whole(window)
    modifies configuration
    ensures ca == Authority(window, configuration.notBeforeGracePeriod, configuration.certificateLifetime,
                            configuration.intermediateCALifetime)
    ensures configuration.Defaulted()
    ensures ca.grace != 0
  {
    configuration.FillDefaults();
    ca := Authority(window, configuration.notBeforeGracePeriod, configuration.certificateLifetime,
                    configuration.intermediateCALifetime);
  }

  // ----- when signing succeeds, and where its windows lie

  /** The whole seconds in which these two instants fall. */
  predicate Spans(w: Window, notBefore: int, notAfter: int) {
    && Whole(w)
    && w.notBefore <= notBefore < w.notBefore + SECOND
    && w.notAfter <= notAfter < w.notAfter + SECOND
  }

  /** Sign's time checks pass exactly from NotBefore + grace to NotAfter - expiration.  What it issues
      then runs, in whole seconds, from the grace period before now to the lifetime after now, and lies
      inside the authority's window; and each refusal has its own reason. */
  lemma SignExactly(ca: Authority, names: seq<string>, now: int)
    requires Whole(ca.window)
    ensures var r := Sign(ca, names, now);
            && (r.Issued? <==>
                  && names != []
                  && ca.window.notBefore + ca.grace <= now <= ca.window.notAfter - ca.certificateExpiration)
            && (r.Issued? ==>
                  Inside(r.value, ca.window) && Spans(r.value, now - ca.grace, now + ca.certificateExpiration))
            && (r == Refused(NoNames) <==> names == [])
            && (r == Refused(NotYetValid) <==> names != [] && now < ca.window.notBefore + ca.grace)
  {
  }

  /** Intermediate checks with the configured lifetime.  What it issues runs, in whole seconds, from its
      second clock reading to 365 days after its third, with no grace period and its issuer's lifetimes. */
  lemma IntermediateExactly(ca: Authority, now: int, start: int, end: int)
    ensures var r := Intermediate(ca, now, start, end);
            && (r.Issued? <==>
                  ca.window.notBefore + ca.grace <= now <= ca.window.notAfter - ca.intermediateExpiration)
            && (r.Issued? ==>
                  && Spans(r.value.window, start, end + YEAR) && r.value.grace == 0
                  && r.value.certificateExpiration == ca.certificateExpiration
                  && r.value.intermediateExpiration == ca.intermediateExpiration)
            && (r == Refused(NotYetValid) <==> now < ca.window.notBefore + ca.grace)
            && r != Refused(NoNames)
  {
  }

  /** Truncation does not cross a whole second. */
  lemma WholeBelow(s: int, t: int)
    requires s % SECOND == 0 && s <= t
    ensures s <= Truncate(t)
  {
  }

  /** The configured intermediate lifetime covers the fixed 365 days, up to the time `drift` that
      passed between the first clock reading and the last. */
  predicate Covers(intermediateExpiration: int, drift: int) {
    YEAR + drift - intermediateExpiration < SECOND
  }

  /** An intermediate certificate lies inside its issuer's window, if its lifetime is covered. */
  lemma IntermediateInside(ca: Authority, now: int, start: int, end: int)
    requires Whole(ca.window) && 0 <= ca.grace && now <= start <= end
    requires Covers(ca.intermediateExpiration, end - now)
    requires Intermediate(ca, now, start, end).Issued?
    ensures var child := Intermediate(ca, now, start, end).value;
            Inside(child.window, ca.window) && Whole(child.window)
  {
  }

  /** The authority issues no intermediate at these readings, or one inside its own window. */
  predicate NestsAt(ca: Authority, now: int, start: int, end: int) {
    Intermediate(ca, now, start, end).Issued? ==> Inside(Intermediate(ca, now, start, end).value.window, ca.window)
  }

  /** Every intermediate an authority with this lifetime can issue lies inside the authority's window. */
  ghost predicate AlwaysInside(intermediateExpiration: int, drift: int) {
    forall ca: Authority, now: int, start: int, end: int {:trigger NestsAt(ca, now, start, end)} ::
      (Whole(ca.window) && 0 <= ca.grace && ca.intermediateExpiration == intermediateExpiration
        && now <= start <= end == now + drift)
      ==> NestsAt(ca, now, start, end)
  }

  /** With clock readings `drift` apart, intermediates never outlive their issuers exactly when the
      configured lifetime covers 365 days and the drift, give or take less than a second. */
  lemma CoverageIsExact(intermediateExpiration: int, drift: int)
    requires 0 <= drift
    ensures AlwaysInside(intermediateExpiration, drift) <==> Covers(intermediateExpiration, drift)
  {
    if Covers(intermediateExpiration, drift) {
      forall ca: Authority, now: int, start: int, end: int |
        Whole(ca.window) && 0 <= ca.grace && ca.intermediateExpiration == intermediateExpiration
        && now <= start <= end == now + drift
        ensures NestsAt(ca, now, start, end)
      {
        if Intermediate(ca, now, start, end).Issued? {
          IntermediateInside(ca, now, start, end);
        }
      }
    } else {
      // An issuer ending exactly when the check allows it to.
      var now := -intermediateExpiration;
      var ca := Authority(Window(Truncate(now), 0), 0, 0, intermediateExpiration);
      assert Intermediate(ca, now, now, now + drift).Issued?;
      WholeBelow(SECOND, now + drift + YEAR);
      assert !NestsAt(ca, now, now, now + drift);
    }
  }

  // ----- chains

  /** The clock readings of one issuance. */
  datatype Reading = Reading(now: int, start: int, end: int)

  ghost predicate Ordered(readings: seq<Reading>) {
    && (forall i :: 0 <= i < |readings| ==> readings[i].now <= readings[i].start <= readings[i].end)
    && (forall i, j :: 0 <= i < j < |readings| ==> readings[i].end <= readings[j].now)
  }

  /** A chain of authorities, each issued by the one before it at the corresponding reading. */
  ghost predicate Chain(cas: seq<Authority>, readings: seq<Reading>) {
    && |cas| == |readings| + 1
    && forall i :: 0 <= i < |readings| ==>
         Intermediate(cas[i], readings[i].now, readings[i].start, readings[i].end) == Issued(cas[i + 1])
  }

  ghost predicate CoversAll(expiration: int, readings: seq<Reading>) {
    forall i :: 0 <= i < |readings| ==> Covers(expiration, readings[i].end - readings[i].now)
  }

  /** In a chain of any length every window lies inside every earlier one. */
  lemma {:induction false} ChainNests(cas: seq<Authority>, readings: seq<Reading>, i: nat, j: nat)
    requires Chain(cas, readings) && Ordered(readings) && CoversAll(cas[0].intermediateExpiration, readings)
    requires Whole(cas[0].window) && 0 <= cas[0].grace && i <= j < |cas|
    ensures Inside(cas[j].window, cas[i].window) && Whole(cas[j].window) && 0 <= cas[j].grace
    ensures cas[j].intermediateExpiration == cas[0].intermediateExpiration
    ensures cas[j].certificateExpiration == cas[0].certificateExpiration
    decreases j
  {
    if j > 0 {
      ChainNests(cas, readings, if i < j then i else j - 1, j - 1);
      var r := readings[j - 1];
      assert Intermediate(cas[j - 1], r.now, r.start, r.end) == Issued(cas[j]);
      IntermediateInside(cas[j - 1], r.now, r.start, r.end);
    }
  }

  /** A certificate signed at the end of a chain lies inside every authority's window; it can be
      refused for the end of the last authority's window, never for its beginning. */
  lemma LeafInsideChain(cas: seq<Authority>, readings: seq<Reading>, names: seq<string>, now: int, i: nat)
    requires Chain(cas, readings) && Ordered(readings) && CoversAll(cas[0].intermediateExpiration, readings)
    requires Whole(cas[0].window) && 0 <= cas[0].grace && i < |cas| && names != []
    requires readings != [] && readings[|readings| - 1].end <= now
    ensures var leaf := Sign(cas[|cas| - 1], names, now);
            && (leaf.Issued? ==> Inside(leaf.value, cas[i].window))
            && (leaf.Refused? ==> leaf.error == ExpiresTooSoon)
  {
    var last := |cas| - 1;
    ChainNests(cas, readings, i, last);
    SignExactly(cas[last], names, now);
    var r := readings[last - 1];
    assert Intermediate(cas[last - 1], r.now, r.start, r.end) == Issued(cas[last]);
  }

  /** An intermediate lives 365 days.  With any certificate lifetime, once it is made it signs
      exactly until that lifetime before the whole second in which its own window ends. */
  lemma IntermediateSignsUntil(ca: Authority, r: Reading, names: seq<string>, now: int)
    requires Intermediate(ca, r.now, r.start, r.end).Issued? && names != []
    requires r.now <= r.start <= r.end && r.start <= now
    ensures Sign(Intermediate(ca, r.now, r.start, r.end).value, names, now).Issued?
       <==> now <= Truncate(r.end + YEAR) - ca.certificateExpiration
  {
  }

  /** Signing with the default certificate lifetime, also 365 days, it succeeds at no later reading
      but the very one its window ends 365 days after, and then only if that is a whole second. */
  lemma IntermediateCannotSignByDefault(ca: Authority, r: Reading, names: seq<string>, now: int)
    requires Intermediate(ca, r.now, r.start, r.end).Issued? && names != []
    requires ca.certificateExpiration == DEFAULT_CERTIFICATE_LIFETIME && r.now <= r.start <= r.end <= now
    ensures Sign(Intermediate(ca, r.now, r.start, r.end).value, names, now).Issued?
       <==> now == r.end && r.end % SECOND == 0
  {
    IntermediateSignsUntil(ca, r, names, now);
  }
}
