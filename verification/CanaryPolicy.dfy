/** The canary decision (`lou/deployment/policy.py`): absence of evidence is never healthy. */
module CanaryPolicy {
  import opened Common
  import opened Journal

  /** Times are seconds since an epoch. */
  datatype CanaryWindow = CanaryWindow(releaseId: string, deadlineAt: int, minimumSamples: nat)

  datatype SloPolicy = SloPolicy(policyRevision: string, maxErrorRate: real, maxLatencyMs: real,
                                 minimumSamples: nat, telemetryMaxAgeSeconds: nat)

  datatype CanaryObservation = CanaryObservation(
    releaseId: string, observedAt: int, sampleCount: nat, errorRate: Option<real>, latencyMs: Option<real>,
    telemetryAvailable: bool, telemetryAgeSeconds: Option<nat>, validationPassed: bool)

  /** Enough fresh, complete telemetry to judge the canary by. */
  predicate Measured(w: CanaryWindow, o: CanaryObservation, p: SloPolicy) {
    && o.telemetryAvailable
    && o.telemetryAgeSeconds.Some? && o.telemetryAgeSeconds.value <= p.telemetryMaxAgeSeconds
    && o.sampleCount >= p.minimumSamples && o.sampleCount >= w.minimumSamples
    && o.errorRate.Some? && o.latencyMs.Some?
  }

  predicate WithinSlo(o: CanaryObservation, p: SloPolicy)
    requires o.errorRate.Some? && o.latencyMs.Some?
  {
    o.errorRate.value <= p.maxErrorRate && o.latencyMs.value <= p.maxLatencyMs
  }

  /** `evaluate_canary`, or `None` when the observation belongs to another window. It promotes exactly when
      validation passed, the telemetry is usable and within the objectives, both evidence links are confirmed
      and the window is over; it rolls back exactly on a failed validation or a measured breach. */
  function EvaluateCanary(w: CanaryWindow, o: CanaryObservation, p: SloPolicy, now: int,
                          verificationRunIds: seq<string>, traceIds: seq<string>): (d: Option<Decision>)
    ensures d.None? <==> o.releaseId != w.releaseId
    ensures d.Some? ==>
              && d.value.releaseId == w.releaseId && d.value.policyRevision == p.policyRevision
              && d.value.decidedAt == now
    ensures d.Some? ==>
              (d.value.action == Promote <==>
                 o.validationPassed && Measured(w, o, p) && WithinSlo(o, p)
                 && verificationRunIds != [] && traceIds != [] && w.deadlineAt <= now)
    ensures d.Some? ==> (d.value.action == Rollback <==> !o.validationPassed || (Measured(w, o, p) && !WithinSlo(o, p)))
  {
    if o.releaseId != w.releaseId then None
    else if !o.validationPassed then Decide(w, Rollback, p, now, "staging validation failed")
    else if !o.telemetryAvailable then Decide(w, Pause, p, now, "telemetry unavailable")
    else if o.telemetryAgeSeconds.None? || o.telemetryAgeSeconds.value > p.telemetryMaxAgeSeconds then
      Decide(w, Pause, p, now, "telemetry is stale")
    else if o.sampleCount < p.minimumSamples || o.sampleCount < w.minimumSamples then
      Decide(w, Pause, p, now, "insufficient telemetry samples")
    else if o.errorRate.None? || o.latencyMs.None? then Decide(w, Pause, p, now, "telemetry metrics are incomplete")
    else if o.errorRate.value > p.maxErrorRate then Decide(w, Rollback, p, now, "error-rate SLO breached")
    else if o.latencyMs.value > p.maxLatencyMs then Decide(w, Rollback, p, now, "latency SLO breached")
    else if verificationRunIds == [] then
      Decide(w, Pause, p, now, "validation is not linked to a verification run")
    else if traceIds == [] then Decide(w, Pause, p, now, "telemetry is not linked to a recorded trace")
    else if now < w.deadlineAt then Decide(w, Pause, p, now, "canary window is still observing")
    else Decide(w, Promote, p, now, "validation passed, canary window complete")
  }

  function Decide(w: CanaryWindow, action: Action, p: SloPolicy, now: int, reason: string): Option<Decision> {
    Some(Decision(w.releaseId, action, p.policyRevision, reason, now))
  }
}
