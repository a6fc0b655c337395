/** Release snapshots of managed transitions and their compatibility (transitions.go). */
module Releases {
  import opened Common
  import opened TransitionVersions

  datatype TransitionAction = Upgrade | Rollback

  datatype Snapshot = Snapshot(
    appId: string,
    appVersion: string,
    releaseRef: string,
    releaseDigest: string,
    manifestDigest: string,
    templateDigest: string,
    dashboardDigest: string,
    dataContract: string,
    defaultWorker: string,
    workers: Option<seq<string>>,  // None is a JSON null, which is not the empty list
    releaseKind: string,
    appImageDigest: string)

  predicate IsNameStart(c: char) { 'a' <= c <= 'z' || IsDigit(c) }

  predicate IsNameChar(c: char) { IsNameStart(c) || c == '.' || c == '_' || c == '-' }

  predicate IsName(s: string) {
    1 <= |s| <= 128 && IsNameStart(s[0]) && forall i :: 0 <= i < |s| ==> IsNameChar(s[i])
  }

  predicate IsHex(c: char) { 'a' <= c <= 'f' || IsDigit(c) }

  predicate IsDigest(s: string) {
    |s| == 71 && s[..7] == "sha256:" && forall i :: 7 <= i < 71 ==> IsHex(s[i])
  }

  predicate NoDuplicates(s: seq<string>) {
    forall i, j :: 0 <= i < j < |s| ==> s[i] != s[j]
  }

  function Workers(s: Snapshot): seq<string> {
    if s.workers.Some? then s.workers.value else []
  }

  predicate ValidSnapshot(s: Snapshot) {
    && IsName(s.appId) && IsVersion(s.appVersion) && IsName(s.releaseRef)
    && IsDigest(s.releaseDigest) && IsDigest(s.manifestDigest)
    && IsDigest(s.templateDigest) && IsDigest(s.dashboardDigest)
    && if s.releaseKind == "dashboard-release" then
         s.dataContract == "" && s.defaultWorker == "" && s.workers == Some([]) && IsDigest(s.appImageDigest)
       else
         && s.releaseKind == "" && s.appImageDigest == "" && IsName(s.dataContract)
         && 1 <= |Workers(s)| <= 128 && s.defaultWorker in Workers(s)
         && (forall v :: v in Workers(s) ==> IsVersion(v))
         && NoDuplicates(Workers(s))
  }

  /**
   * The part of compatibleTransition that compares the two snapshots with the
   * version and App installed when the command was accepted.
   */
  predicate Compatible(action: TransitionAction, appId: string, installedVersion: string, sourceVersion: string,
                       targetRef: string, source: Snapshot, target: Snapshot)
  {
    && ValidSnapshot(source) && ValidSnapshot(target)
    && source.appId == appId && target.appId == appId
    && source.appVersion == installedVersion && source.appVersion == sourceVersion
    && target.releaseRef == targetRef
    && source.dataContract == target.dataContract && source.releaseKind == target.releaseKind
    && source.releaseRef != target.releaseRef
    && (action == Upgrade ==> VersionOrder(target.appVersion, source.appVersion) > 0)
    && (action == Rollback ==> VersionOrder(target.appVersion, source.appVersion) < 0)
    && forall v :: v in Workers(source) ==> v in Workers(target)
  }

  lemma {:induction false} NumbersOrderReflexive(x: seq<nat>)
    ensures NumbersOrder(x, x) == 0
  {
    if x != [] { NumbersOrderReflexive(x[1..]); }
  }

  /** A compatible transition always changes the installed version. */
  lemma CompatibleChangesVersion(action: TransitionAction, appId: string, installedVersion: string, sourceVersion: string,
                                 targetRef: string, source: Snapshot, target: Snapshot)
    requires Compatible(action, appId, installedVersion, sourceVersion, targetRef, source, target)
    ensures source.appVersion != target.appVersion
  {
    NumbersOrderReflexive(Numbers(Split(source.appVersion, '.')));
  }
}
