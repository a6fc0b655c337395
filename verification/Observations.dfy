/** Collector evidence as values: what a collector may report, what it means, and how long it is believed. */
module Observations {
  import opened Common
  import opened TransitionVersions
  import opened Releases

  /** The service clock in nanoseconds, as Go durations count. */
  type Time = int

  const SECOND: Time := 1_000_000_000
  const TTL: Time := 30 * SECOND
  const FULL_SYNC: Time := 60 * SECOND
  const MAX_INVENTORY: nat := 10000
  const MAX_BINDINGS: nat := 1000

  // ---------- Reports ----------

  datatype Position = Position(namespace: string, name: string)

  datatype Health = NotChecked | Healthy | Unhealthy | Unrecognized

  datatype Image = Image(component: string, image: string)

  datatype Discovery = Discovery(app: string, group: string, brand: string, version: string, display: string,
                                 models: string, source: string)

  datatype Metadata = Metadata(ownershipMarked: bool, templateHash: string, imagesComplete: bool,
                               images: Option<seq<Image>>, discovery: Discovery)

  datatype Observation = Observation(
    pos: Position, uid: string, resourceVersion: string,
    station: string, organization: string, installation: string, app: string, instance: string,
    generation: int, observedGeneration: int,
    desired: int, replicas: int, ready: int, updated: int, available: int,
    progressFailed: bool, replicaFailed: bool, terminating: bool, deleted: bool,
    health: Health, metadata: Option<Metadata>)

  /** Everything a report says about Kubernetes, without the HTTP probe. */
  function Bare(o: Observation): Observation {
    o.(health := NotChecked)
  }

  /** Trusted server configuration. */
  datatype Config = Config(id: string, namespaces: seq<string>, healthRequired: seq<string>)

  // ---------- Names ----------

  predicate IsLabel(s: string) {
    1 <= |s| <= 63 && IsNameStart(s[0]) && IsNameStart(s[|s| - 1])
    && forall i :: 0 <= i < |s| ==> IsNameStart(s[i]) || s[i] == '-'
  }

  /** A DNS subdomain: labels of any length joined by dots, at most 253 characters. */
  predicate IsSubdomain(s: string) {
    |s| <= 253 && forall part :: part in Split(s, '.') ==>
      part != "" && IsNameStart(part[0]) && IsNameStart(part[|part| - 1])
      && forall i :: 0 <= i < |part| ==> IsNameStart(part[i]) || part[i] == '-'
  }

  /** A canonical non-zero UUID. */
  predicate IsId(s: string) {
    && |s| == 36
    && (forall i :: 0 <= i < 36 ==> if i in {8, 13, 18, 23} then s[i] == '-' else IsHex(s[i]))
    && (exists i :: 0 <= i < 36 && s[i] != '-' && s[i] != '0')
  }

  predicate Distinct<T(==)>(s: seq<T>) {
    forall i, j :: 0 <= i < j < |s| ==> s[i] != s[j]
  }

  predicate ValidConfig(c: Config) {
    && IsLabel(c.id) && 1 <= |c.namespaces| <= 128 && |c.healthRequired| <= 1000
    && (forall ns :: ns in c.namespaces ==> IsLabel(ns)) && Distinct(c.namespaces)
    && (forall app :: app in c.healthRequired ==> IsName(app)) && Distinct(c.healthRequired)
  }

  predicate ValidLocation(pos: Position, uid: string, c: Config) {
    IsLabel(pos.namespace) && pos.namespace in c.namespaces && IsSubdomain(pos.name) && 1 <= |uid| <= 128
  }

  predicate ValidImages(images: seq<Image>) {
    && (forall i :: i in images ==> IsLabel(i.component) && 1 <= |i.image| <= 2048)
    && forall i, j :: 0 <= i < j < |images| ==> images[i].component != images[j].component
  }

  predicate ValidMetadata(m: Metadata) {
    && |m.templateHash| <= 128 && m.images.Some? && |m.images.value| <= 64
    && (m.imagesComplete <==> m.images.value != [])
    && ValidImages(m.images.value)
    && |m.discovery.app| <= 128 && |m.discovery.group| <= 128 && |m.discovery.brand| <= 128 && |m.discovery.version| <= 128
    && |m.discovery.display| <= 512 && |m.discovery.models| <= 4096 && |m.discovery.source| <= 1024
  }

  predicate ValidResource(o: Observation, c: Config) {
    && ValidLocation(o.pos, o.uid, c) && 1 <= |o.resourceVersion| <= 256
    && o.generation >= 0 && o.observedGeneration >= 0 && o.desired >= 0 && o.replicas >= 0 && o.ready >= 0
    && o.updated >= 0 && o.available >= 0 && o.health != Unrecognized
    && |o.station| <= 128 && |o.organization| <= 128 && |o.installation| <= 128 && |o.app| <= 128 && |o.instance| <= 128
    && (o.metadata.Some? ==> ValidMetadata(o.metadata.value))
  }

  /** The image loop of validStreamResource, which remembers the components it has seen. */
  method CheckImages(images: seq<Image>) returns (ok: bool)
    ensures ok <==> ValidImages(images)
  {
    var seen: set<string> := {};
    for n := 0 to |images|
      invariant seen == set i | 0 <= i < n :: images[i].component
      invariant ValidImages(images[..n])
    {
      var image := images[n];
      if !IsLabel(image.component) || |image.image| == 0 || |image.image| > 2048 {
        assert image in images;
        return false;
      }
      if image.component in seen {
        return false;
      }
      seen := seen + {image.component};
      assert images[..n + 1] == images[..n] + [image];
    }
    assert images[..|images|] == images;
    return true;
  }

  // ---------- Meaning ----------

  datatype AppState = Unknown | Absent | Stopping | Stopped | Degraded | Starting | Ready

  datatype Reason =
    | NotSynced | NotObserved | InvalidObservation | ObservationExpired | IdentityConflict | CollectorScopeChanged
    | ResourceAbsent | ResourceTerminating | ScaledToZero | ReplicasTerminating | ProgressDeadlineExceeded
    | ReplicaFailure | HealthCheckFailed | ReplicasNotReady | HealthNotObserved | IsReady

  datatype Quality = Known | Unsure

  datatype Runtime = Runtime(state: AppState, quality: Quality, reason: Reason,
                             observedAt: Option<Time>, expiresAt: Option<Time>, lastKnown: Option<AppState>)

  const UNSYNCED := Runtime(Unknown, Unsure, NotSynced, None, None, None)

  /** What a report says about the workload. */
  function Evaluate(o: Observation, healthRequired: bool): (AppState, Reason) {
    if o.deleted then (Absent, ResourceAbsent)
    else if o.terminating then (Stopping, ResourceTerminating)
    else if o.observedGeneration > o.generation then (Unknown, InvalidObservation)
    else if o.desired == 0 then
      if o.replicas == 0 then (Stopped, ScaledToZero) else (Stopping, ReplicasTerminating)
    else if o.progressFailed then (Degraded, ProgressDeadlineExceeded)
    else if o.replicaFailed then (Degraded, ReplicaFailure)
    else if o.health == Unhealthy then (Degraded, HealthCheckFailed)
    else if o.generation < 1 || o.observedGeneration < o.generation || o.replicas != o.desired || o.ready != o.desired
            || o.updated != o.desired || o.available != o.desired then (Starting, ReplicasNotReady)
    else if healthRequired && o.health != Healthy then (Unknown, HealthNotObserved)
    else (Ready, IsReady)
  }

  /** The latest specification is at work: every replica it asks for is updated, ready and available. */
  predicate Serving(o: Observation) {
    && 1 <= o.generation == o.observedGeneration
    && o.desired == o.replicas && o.desired == o.updated && o.desired == o.ready && o.desired == o.available
  }

  /** The report is of a workload that is there and means to run: nothing about it is out of order in time. */
  predicate Wanted(o: Observation) {
    !o.deleted && !o.terminating && o.observedGeneration <= o.generation && o.desired != 0
  }

  predicate Failing(o: Observation) {
    o.progressFailed || o.replicaFailed || o.health == Unhealthy
  }

  /** When a report means this state for this reason: one condition on its fields for each reason there is. */
  predicate Means(o: Observation, healthRequired: bool, state: AppState, reason: Reason) {
    match reason
    case ResourceAbsent => state == Absent && o.deleted
    case ResourceTerminating => state == Stopping && !o.deleted && o.terminating
    case InvalidObservation => state == Unknown && !o.deleted && !o.terminating && o.observedGeneration > o.generation
    case ScaledToZero =>
      state == Stopped && !o.deleted && !o.terminating && o.observedGeneration <= o.generation && o.desired == o.replicas == 0
    case ReplicasTerminating =>
      state == Stopping && !o.deleted && !o.terminating && o.observedGeneration <= o.generation && o.desired == 0 != o.replicas
    case ProgressDeadlineExceeded => state == Degraded && Wanted(o) && o.progressFailed
    case ReplicaFailure => state == Degraded && Wanted(o) && o.replicaFailed && !o.progressFailed
    case HealthCheckFailed => state == Degraded && Wanted(o) && o.health == Unhealthy && !o.progressFailed && !o.replicaFailed
    case ReplicasNotReady => state == Starting && Wanted(o) && !Failing(o) && !Serving(o)
    case HealthNotObserved => state == Unknown && Wanted(o) && !Failing(o) && Serving(o) && healthRequired && o.health != Healthy
    case IsReady => state == Ready && Wanted(o) && !Failing(o) && Serving(o) && (healthRequired ==> o.health == Healthy)
    case _ => false
  }

  /** The evaluation in the order of its branches meets every reason exactly under its own condition. */
  lemma EvaluatesExactly(o: Observation, healthRequired: bool, state: AppState, reason: Reason)
    ensures Evaluate(o, healthRequired) == (state, reason) <==> Means(o, healthRequired, state, reason)
  {
  }

  /** RuntimeView: what evidence received at one instant says at another. */
  function RuntimeView(now: Time, state: Option<AppState>, reason: Option<Reason>, received: Option<Time>,
                       expires: Option<Time>, expired: bool): Runtime
  {
    var out := Runtime(Unknown, Unsure, NotObserved, received, expires, None);
    if state.None? || reason.None? || received.None? || expires.None? then out
    else if expires.value <= received.value || received.value > now then out.(reason := InvalidObservation)
    else
      var last := if state.value != Unknown then Some(state.value) else None;
      if expired || now >= expires.value then out.(reason := ObservationExpired, lastKnown := last)
      else
        Runtime(state.value, if state.value != Unknown then Known else Unsure, reason.value, received, expires, last)
  }

  /** Known evidence is current evidence: the clock lies between its receipt and its expiry. */
  lemma KnownIsCurrent(now: Time, state: Option<AppState>, reason: Option<Reason>, received: Option<Time>,
                       expires: Option<Time>, expired: bool)
    ensures var v := RuntimeView(now, state, reason, received, expires, expired);
      v.quality == Known <==>
        && state.Some? && reason.Some? && received.Some? && expires.Some? && !expired && state.value != Unknown
        && received.value <= now < expires.value
        && v == Runtime(state.value, Known, reason.value, received, expires, state)
  {
  }
}
