/**
 Names of the secrets that belong to an application bundle
 (components/compass-runtime-agent/internal/k8sconsts/nameresolver.go).
 */
module NameResolver {
  const MAX_RESOURCE_NAME_LENGTH := 63
  const UUID_LENGTH := 36
  const PARAMS := "params-"

  function TruncateApplication(application: string): string {
    var overflow := |application| + 1 - (MAX_RESOURCE_NAME_LENGTH - UUID_LENGTH);
    if overflow > 0 then application[..|application| - overflow] else application
  }

  function ResourceName(application: string, id: string): string {
    TruncateApplication(application) + "-" + id
  }

  function CredentialsSecretName(application: string, bundleId: string): string {
    ResourceName(application, bundleId)
  }

  function ParametersSecretName(application: string, bundleId: string): string {
    ResourceName(PARAMS + application, bundleId)
  }

  predicate IsUuid(id: string) {
    |id| == UUID_LENGTH
  }

  /** Every name fits a Kubernetes name as long as the id is not longer than a UUID, and ends in the whole id. */
  lemma SecretNameFits(application: string, id: string)
    ensures |id| <= UUID_LENGTH ==> |ResourceName(application, id)| <= MAX_RESOURCE_NAME_LENGTH
    ensures ResourceName(application, id)[|ResourceName(application, id)| - |id|..] == id
    ensures TruncateApplication(application) <= application
    ensures TruncateApplication(application) == application <==> |application| <= 26
  {
  }

  /** Two names with UUIDs are equal exactly when the ids and the first 26 characters of the prefixes are. */
  lemma ResourceNamesEqual(a: string, b: string, idA: string, idB: string)
    requires IsUuid(idA) && IsUuid(idB)
    ensures ResourceName(a, idA) == ResourceName(b, idB)
            <==> idA == idB && (if |a| > 26 then a[..26] else a) == (if |b| > 26 then b[..26] else b)
  {
    var nameA, nameB := ResourceName(a, idA), ResourceName(b, idB);
    var prefixA, prefixB := TruncateApplication(a), TruncateApplication(b);
    assert nameA[|nameA| - UUID_LENGTH..] == idA && nameB[|nameB| - UUID_LENGTH..] == idB;
    assert nameA[..|nameA| - UUID_LENGTH - 1] == prefixA && nameB[..|nameB| - UUID_LENGTH - 1] == prefixB;
  }

  /** Without the fixed length of the ids the dash does not separate: two different bundles share a name. */
  lemma ShortIdsCollide()
    ensures ResourceName("a", "b-c") == ResourceName("a-b", "c")
  {
  }

  const REPEATED_PARAMS := "params-params-params-param"

  lemma SameTruncation(a: string, b: string, id: string)
    ensures ResourceName(a, id) == ResourceName(b, id) <==> TruncateApplication(a) == TruncateApplication(b)
  {
    var s, t := TruncateApplication(a), TruncateApplication(b);
    if ResourceName(a, id) == ResourceName(b, id) {
      assert |s| == |t|;
      assert s == (s + "-" + id)[..|s|] && t == (t + "-" + id)[..|t|];
    }
  }

  /** A string that goes on as itself behind a prefix repeats the prefix. */
  lemma RepeatsPrefix(a: string)
    requires |a| >= 26 && forall i :: 0 <= i < 26 ==> a[i] == (PARAMS + a)[i]
    ensures forall i :: 0 <= i < 26 ==> a[i] == REPEATED_PARAMS[i]
  {
    assert forall i :: 7 <= i < 26 ==> (PARAMS + a)[i] == a[i - 7];
    assert forall i :: 0 <= i < 7 ==> a[i] == PARAMS[i] == REPEATED_PARAMS[i];
    assert forall i :: 7 <= i < 26 ==> REPEATED_PARAMS[i] == REPEATED_PARAMS[i - 7];
    assert forall i :: 7 <= i < 14 ==> a[i] == REPEATED_PARAMS[i];
    assert forall i :: 14 <= i < 21 ==> a[i] == REPEATED_PARAMS[i];
    assert forall i :: 21 <= i < 26 ==> a[i] == REPEATED_PARAMS[i];
  }

  lemma RepetitionGoesOn(a: string)
    requires |a| >= 26 && forall i :: 0 <= i < 26 ==> a[i] == REPEATED_PARAMS[i]
    ensures forall i :: 0 <= i < 26 ==> a[i] == (PARAMS + a)[i]
  {
    assert forall i :: 0 <= i < 7 ==> PARAMS[i] == REPEATED_PARAMS[i];
    assert forall i :: 7 <= i < 26 ==> REPEATED_PARAMS[i] == REPEATED_PARAMS[i - 7];
  }

  /** The two secrets of one bundle share a name exactly for applications that repeat the parameters prefix. */
  lemma KindsCollide(application: string, id: string)
    ensures CredentialsSecretName(application, id) == ParametersSecretName(application, id)
            <==> REPEATED_PARAMS <= application
  {
    hide ResourceName;
    var other := PARAMS + application;
    SameTruncation(application, other, id);
    if |application| >= 26 {
      if application[..26] == other[..26] {
        assert forall i :: 0 <= i < 26 ==> application[i] == application[..26][i] == other[..26][i] == other[i];
        RepeatsPrefix(application);
      }
      if REPEATED_PARAMS <= application {
        RepetitionGoesOn(application);
        assert application[..26] == other[..26];
      }
    }
  }

  /** The names of one kind or the other never meet for applications that start differently from the prefix. */
  lemma KindsDiffer(a: string, b: string, idA: string, idB: string)
    requires IsUuid(idA) && IsUuid(idB)
    requires "mp" <= a
    ensures CredentialsSecretName(a, idA) != ParametersSecretName(b, idB)
  {
    ResourceNamesEqual(a, PARAMS + b, idA, idB);
    assert (PARAMS + b)[0] == 'p' && a[0] == 'm';
    if |a| > 26 { assert a[..26][0] == 'm'; }
    if |PARAMS + b| > 26 { assert (PARAMS + b)[..26][0] == 'p'; }
  }
}
