/**
 * The cache compares facts through one joined string. The join loses nothing:
 * although a uid may contain the separator, equal strings mean equal facts.
 */
module AppSemantics {
  import opened Common
  import opened Observations
  import opened AppMemory

  function StateText(s: AppState): (t: string)
    ensures '/' !in t && 1 <= |t| <= 8
  {
    match s
    case Unknown => "unknown"
    case Absent => "absent"
    case Stopping => "stopping"
    case Stopped => "stopped"
    case Degraded => "degraded"
    case Starting => "starting"
    case Ready => "ready"
  }

  function QualityText(q: Quality): (t: string)
    ensures '/' !in t
  {
    match q
    case Known => "known"
    case Unsure => "unknown"
  }

  function EvidenceText(r: Reason): (t: string)
    ensures '/' !in t
  {
    match r
    case NotSynced => "NOT_SYNCED"
    case NotObserved => "NOT_OBSERVED"
    case InvalidObservation => "INVALID_OBSERVATION"
    case ObservationExpired => "OBSERVATION_EXPIRED"
    case IdentityConflict => "IDENTITY_CONFLICT"
    case CollectorScopeChanged => "COLLECTOR_SCOPE_CHANGED"
    case _ => "RESOURCE_ABSENT"
  }

  function ReasonText(r: Reason): (t: string)
    ensures '/' !in t
  {
    match r
    case ResourceTerminating => "RESOURCE_TERMINATING"
    case ScaledToZero => "SCALED_TO_ZERO"
    case ReplicasTerminating => "REPLICAS_TERMINATING"
    case ProgressDeadlineExceeded => "PROGRESS_DEADLINE_EXCEEDED"
    case ReplicaFailure => "REPLICA_FAILURE"
    case HealthCheckFailed => "HEALTH_CHECK_FAILED"
    case ReplicasNotReady => "REPLICAS_NOT_READY"
    case HealthNotObserved => "HEALTH_NOT_OBSERVED"
    case IsReady => "READY"
    case _ => EvidenceText(r)
  }

  function LastText(last: Option<AppState>): (t: string)
    ensures '/' !in t && |t| <= 8
  {
    if last.Some? then StateText(last.value) else ""
  }

  lemma StateTextInjective(a: AppState, b: AppState)
    requires StateText(a) == StateText(b)
    ensures a == b
  {
    assert StateText(a)[0] == StateText(b)[0] && |StateText(a)| == |StateText(b)|;
    assert |StateText(a)| == 8 ==> StateText(a)[2] == StateText(b)[2];
  }

  lemma ReasonTextInjective(a: Reason, b: Reason)
    requires ReasonText(a) == ReasonText(b)
    ensures a == b
  {
    var s, t := ReasonText(a), ReasonText(b);
    assert |s| == |t| && s[0] == t[0] && s[|s| - 1] == t[|t| - 1] && s[2] == t[2];
    assert |s| >= 12 ==> s[11] == t[11];
  }

  function SemanticText(s: Semantic, hex: Option<Metadata> -> string): string {
    var facts := s.uid + "/" + StateText(s.state) + "/" + QualityText(s.quality) + "/" + ReasonText(s.reason) + "/" + LastText(s.lastKnown);
    if s.digest.Some? then facts + "/" + hex(s.digest.value) else facts
  }

  /** What is assumed of SHA-256 in hexadecimal: 64 characters, none of them the separator. Collisions may exist. */
  ghost predicate IsDigestFunction(hex: Option<Metadata> -> string) {
    forall m :: |hex(m)| == 64 && '/' !in hex(m)
  }

  /** The digests of two facts, when both have one, do not collide. */
  predicate NoCollision(s: Semantic, t: Semantic, hex: Option<Metadata> -> string) {
    s.digest.Some? && t.digest.Some? && hex(s.digest.value) == hex(t.digest.value) ==> s.digest == t.digest
  }

  /** There are such functions, and for any two pieces of metadata one that tells them apart. */
  lemma DigestFunctionsExist(a: Option<Metadata>, b: Option<Metadata>) returns (hex: Option<Metadata> -> string)
    ensures IsDigestFunction(hex) && (hex(a) == hex(b) <==> a == b)
  {
    var zeros, ones := seq(64, _ => '0'), seq(64, _ => '1');
    hex := m => if m == a then zeros else ones;
    assert zeros[0] != ones[0];
  }

  lemma NotLater(a: string, x: string, b: string, y: string)
    requires a + "/" + x == b + "/" + y && '/' !in y
    ensures |a| <= |b|
  {
    var t := b + "/" + y;
    assert (a + "/" + x)[|a|] == '/';
    assert forall i :: |b| < i < |t| ==> t[i] == y[i - |b| - 1];
  }

  /** What follows the last separator is determined. */
  lemma LastPart(a: string, x: string, b: string, y: string)
    requires a + "/" + x == b + "/" + y && '/' !in x && '/' !in y
    ensures a == b && x == y
  {
    NotLater(a, x, b, y);
    NotLater(b, y, a, x);
    var t := a + "/" + x;
    assert a == t[..|a|] && b == t[..|b|];
    assert x == t[|a| + 1..] && y == t[|b| + 1..];
  }

  /**
   * Two strings are equal exactly when all the facts are, and both lack an object
   * or both have one whose metadata has the same digest.
   */
  lemma SemanticTextIsInjective(s: Semantic, t: Semantic, hex: Option<Metadata> -> string)
    requires IsDigestFunction(hex)
    ensures SemanticText(s, hex) == SemanticText(t, hex) <==>
      && s.(digest := None) == t.(digest := None) && (s.digest.Some? <==> t.digest.Some?)
      && (s.digest.Some? ==> hex(s.digest.value) == hex(t.digest.value))
    ensures NoCollision(s, t, hex) ==> (SemanticText(s, hex) == SemanticText(t, hex) <==> s == t)
  {
    if SemanticText(s, hex) == SemanticText(t, hex) {
      SameTextSameFacts(s, t, hex);
    }
  }

  lemma SameTextSameFacts(s: Semantic, t: Semantic, hex: Option<Metadata> -> string)
    requires IsDigestFunction(hex) && SemanticText(s, hex) == SemanticText(t, hex)
    ensures s.(digest := None) == t.(digest := None) && (s.digest.Some? <==> t.digest.Some?)
    ensures s.digest.Some? ==> hex(s.digest.value) == hex(t.digest.value)
  {
    hide StateText, QualityText, ReasonText, LastText;
    var s3 := s.uid + "/" + StateText(s.state) + "/" + QualityText(s.quality) + "/" + ReasonText(s.reason);
    var t3 := t.uid + "/" + StateText(t.state) + "/" + QualityText(t.quality) + "/" + ReasonText(t.reason);
    var s4, t4 := s3 + "/" + LastText(s.lastKnown), t3 + "/" + LastText(t.lastKnown);
    if s.digest.Some? && t.digest.Some? {
      LastPart(s4, hex(s.digest.value), t4, hex(t.digest.value));
    } else if s.digest.Some? {
      LastPart(s4, hex(s.digest.value), t3, LastText(t.lastKnown));
    } else if t.digest.Some? {
      LastPart(s3, LastText(s.lastKnown), t4, hex(t.digest.value));
    }
    LastPart(s3, LastText(s.lastKnown), t3, LastText(t.lastKnown));
    FactsInjective(s, t);
  }

  lemma FactsInjective(s: Semantic, t: Semantic)
    requires s.uid + "/" + StateText(s.state) + "/" + QualityText(s.quality) + "/" + ReasonText(s.reason)
          == t.uid + "/" + StateText(t.state) + "/" + QualityText(t.quality) + "/" + ReasonText(t.reason)
    requires LastText(s.lastKnown) == LastText(t.lastKnown)
    ensures s.uid == t.uid && s.state == t.state && s.quality == t.quality && s.reason == t.reason && s.lastKnown == t.lastKnown
  {
    hide StateText, ReasonText;
    var s1, t1 := s.uid + "/" + StateText(s.state), t.uid + "/" + StateText(t.state);
    LastPart(s1 + "/" + QualityText(s.quality), ReasonText(s.reason), t1 + "/" + QualityText(t.quality), ReasonText(t.reason));
    LastPart(s1, QualityText(s.quality), t1, QualityText(t.quality));
    LastPart(s.uid, StateText(s.state), t.uid, StateText(t.state));
    StateTextInjective(s.state, t.state);
    ReasonTextInjective(s.reason, t.reason);
    QualityTextInjective(s.quality, t.quality);
    if s.lastKnown.Some? && t.lastKnown.Some? { StateTextInjective(s.lastKnown.value, t.lastKnown.value); }
  }

  lemma QualityTextInjective(a: Quality, b: Quality)
    requires QualityText(a) == QualityText(b)
    ensures a == b
  {
    assert |QualityText(a)| == |QualityText(b)|;
  }
}
