/** Run manifests: the unit list, its validator, and the checks made when it is inserted. */
module Manifests {
  import opened Sql
  import Json = CanonicalJson

  /** What a unit is bound to, without its place in the list. */
  datatype Binding = Binding(
    unitKey: string, caseVersion: string, executionProfile: string, fixtureBlueprint: string,
    identityProfile: string, environment: string, browserProfile: string, dataProfile: string,
    parameterDigest: string, dependencyDigest: string)

  datatype Entry = Entry(ordinal: int, binding: Binding)

  const MAX_UNITS := 64

  predicate Hex(c: char) { '0' <= c <= '9' || 'a' <= c <= 'f' }

  predicate AllHex(s: string) { s == "" || (Hex(s[0]) && AllHex(s[1..])) }

  /** sha256: and 64 hexadecimal digits. */
  predicate IsDigest(s: string) { |s| == 71 && s[..7] == "sha256:" && AllHex(s[7..]) }

  /** A lower-case UUID of version 1 to 8. */
  predicate IsUuid(s: string) {
    && |s| == 36
    && s[8] == s[13] == s[18] == s[23] == '-'
    && AllHex(s[..8] + s[9..13] + s[14..18] + s[19..23] + s[24..])
    && '1' <= s[14] <= '8' && s[19] in "89ab"
  }

  /** The format checks of the validator. */
  predicate HasFormats(b: Binding) {
    && IsDigest(b.unitKey) && IsDigest(b.parameterDigest) && IsDigest(b.dependencyDigest)
    && IsUuid(b.caseVersion) && IsUuid(b.executionProfile) && IsUuid(b.fixtureBlueprint) && IsUuid(b.identityProfile)
    && IsUuid(b.environment) && IsUuid(b.browserProfile) && IsUuid(b.dataProfile)
  }

  // What the formats mean, character by character.

  predicate HexText(s: string, from: nat) { forall i :: from <= i < |s| ==> s[i] in "0123456789abcdef" }

  predicate DigestText(s: string) { |s| == 71 && s[..7] == "sha256:" && HexText(s, 7) }

  predicate IsHyphen(i: nat) { i == 8 || i == 13 || i == 18 || i == 23 }

  predicate UuidChar(c: char, i: nat) {
    if IsHyphen(i) then c == '-'
    else if i == 14 then c in "12345678"
    else if i == 19 then c in "89ab"
    else c in "0123456789abcdef"
  }

  predicate UuidText(s: string) { |s| == 36 && forall i :: 0 <= i < 36 ==> UuidChar(s[i], i) }

  predicate WellFormed(b: Binding) {
    && DigestText(b.unitKey) && DigestText(b.parameterDigest) && DigestText(b.dependencyDigest)
    && UuidText(b.caseVersion) && UuidText(b.executionProfile) && UuidText(b.fixtureBlueprint)
    && UuidText(b.identityProfile) && UuidText(b.environment) && UuidText(b.browserProfile) && UuidText(b.dataProfile)
  }

  lemma {:induction false} AllHexMeans(s: string)
    ensures AllHex(s) <==> HexText(s, 0)
  {
    if s != "" {
      AllHexMeans(s[1..]);
      assert Hex(s[0]) <==> s[0] in "0123456789abcdef";
      assert forall i :: 0 < i < |s| ==> s[i] == s[1..][i - 1];
    }
  }

  lemma DigestMeans(s: string)
    ensures IsDigest(s) <==> DigestText(s)
  {
    if |s| == 71 {
      AllHexMeans(s[7..]);
      assert forall i :: 7 <= i < 71 ==> s[i] == s[7..][i - 7];
    }
  }

  lemma UuidHex(s: string)
    requires |s| == 36
    ensures AllHex(s[..8] + s[9..13] + s[14..18] + s[19..23] + s[24..]) <==>
      forall i: nat :: i < 36 && !IsHyphen(i) ==> s[i] in "0123456789abcdef"
  {
    var t := s[..8] + s[9..13] + s[14..18] + s[19..23] + s[24..];
    AllHexMeans(t);
    assert forall i :: 0 <= i < 8 ==> t[i] == s[i];
    assert forall i :: 9 <= i < 13 ==> t[i - 1] == s[i];
    assert forall i :: 14 <= i < 18 ==> t[i - 2] == s[i];
    assert forall i :: 19 <= i < 23 ==> t[i - 3] == s[i];
    assert forall i :: 24 <= i < 36 ==> t[i - 4] == s[i];
  }

  lemma UuidMeans(s: string)
    ensures IsUuid(s) <==> UuidText(s)
  {
    if |s| == 36 { UuidHex(s); }
  }

  lemma FormatsMean(b: Binding)
    ensures HasFormats(b) <==> WellFormed(b)
  {
    DigestMeans(b.unitKey);
    DigestMeans(b.parameterDigest);
    DigestMeans(b.dependencyDigest);
    UuidMeans(b.caseVersion);
    UuidMeans(b.executionProfile);
    UuidMeans(b.fixtureBlueprint);
    UuidMeans(b.identityProfile);
    UuidMeans(b.environment);
    UuidMeans(b.browserProfile);
    UuidMeans(b.dataProfile);
  }

  function Keys(units: seq<Entry>): (ks: seq<string>)
    ensures |ks| == |units| && forall i :: 0 <= i < |units| ==> ks[i] == units[i].binding.unitKey
  {
    seq(|units|, i requires 0 <= i < |units| => units[i].binding.unitKey)
  }

  predicate InPlace(e: Entry, position: int) { e.ordinal == position && WellFormed(e.binding) }

  predicate AllInPlace(units: seq<Entry>, n: nat)
    requires n <= |units|
  {
    forall i :: 0 <= i < n ==> InPlace(units[i], i + 1)
  }

  lemma InPlaceExtends(units: seq<Entry>, n: nat)
    requires n < |units| && AllInPlace(units, n) && InPlace(units[n], n + 1)
    ensures AllInPlace(units, n + 1)
  {
    forall i | 0 <= i < n + 1 ensures InPlace(units[i], i + 1) {
      if i == n { assert units[i] == units[n]; }
    }
  }

  /** A valid unit list: 1 to 64 well-formed entries, numbered by position, with strictly
      ascending and hence distinct keys. */
  predicate ValidUnits(units: seq<Entry>) {
    && 1 <= |units| <= MAX_UNITS
    && AllInPlace(units, |units|)
    && KeysInOrder(units)
  }

  predicate KeysInOrder(units: seq<Entry>) {
    forall i, j :: 0 <= i < j < |units| ==> Json.Precedes(units[i].binding.unitKey, units[j].binding.unitKey)
  }

  lemma KeysAscend(units: seq<Entry>)
    ensures Json.Ascending(Keys(units)) <==> KeysInOrder(units)
  {
    Json.AscendingMeans(Keys(units));
    if KeysInOrder(units) {
      forall i, j | 0 <= i < j < |units| ensures Json.Precedes(Keys(units)[i], Keys(units)[j]) {
        assert Json.Precedes(units[i].binding.unitKey, units[j].binding.unitKey);
      }
    }
  }

  method CheckEntry(e: Entry, position: int) returns (good: bool)
    ensures good <==> InPlace(e, position)
  {
    FormatsMean(e.binding);
    good := e.ordinal == position && HasFormats(e.binding);
  }

  /** The validator's single pass, comparing each key with the previous one only. */
  method CheckUnits(units: seq<Entry>) returns (ok: bool)
    ensures ok <==> ValidUnits(units)
  {
    if !(1 <= |units| <= 64) { return false; }
    KeysAscend(units);
    var previousKey: Option<string> := None;
    for i := 0 to |units|
      invariant previousKey == if i == 0 then None else Some(units[i - 1].binding.unitKey)
      invariant AllInPlace(units, i)
      invariant Json.Ascending(Keys(units)[..i])
    {
      var good := CheckEntry(units[i], i + 1);
      if !good { return false; }
      InPlaceExtends(units, i);
      var currentKey := units[i].binding.unitKey;
      AscendingExtends(Keys(units), i);
      if previousKey.Some? && !Json.Less(previousKey.value, currentKey) { return false; }
      previousKey := Some(currentKey);
    }
    assert Keys(units)[..|units|] == Keys(units);
    return true;
  }

  lemma AscendingExtends(ks: seq<string>, n: nat)
    requires n < |ks| && Json.Ascending(ks[..n])
    ensures Json.Ascending(ks[..n + 1]) <==> n == 0 || Json.Less(ks[n - 1], ks[n])
    ensures Json.Ascending(ks) ==> n == 0 || Json.Less(ks[n - 1], ks[n])
  {
    var t := ks[..n + 1];
    if n > 0 && Json.Less(ks[n - 1], ks[n]) {
      forall i | 0 <= i < n ensures Json.Less(t[i], t[n]) {
        if i < n - 1 {
          assert Json.Less(ks[..n][i], ks[..n][n - 1]);
          Json.LessIsStrictOrder(ks[i], ks[n - 1], ks[n]);
        }
      }
      forall i, j | 0 <= i < j < n ensures Json.Less(t[i], t[j]) { assert Json.Less(ks[..n][i], ks[..n][j]); }
    }
    if n > 0 && Json.Ascending(t) { assert Json.Less(t[n - 1], t[n]); }
  }

  lemma KeysAreDistinct(units: seq<Entry>, i: nat, j: nat)
    requires ValidUnits(units) && i < |units| && j < |units| && units[i].binding.unitKey == units[j].binding.unitKey
    ensures i == j
  {
    KeysAscend(units);
    Json.LessIsStrictOrder(Keys(units)[i], Keys(units)[j], "");
  }

  /** `units -> k`: a negative index counts from the end. */
  function Lookup(units: seq<Entry>, k: int): Option<Entry> {
    if 0 <= k < |units| then Some(units[k])
    else if -|units| <= k < 0 then Some(units[|units| + k])
    else None
  }

  // ------------------------------------------------------------ the insert guard

  /** The parts of a plan version a manifest must derive from. */
  datatype Plan = Plan(
    cases: set<string>, environments: set<string>, browserProfiles: set<string>,
    identityProfiles: set<string>, dataProfiles: set<string>,
    profiles: map<string, (string, string)>)  // case -> execution profile, fixture blueprint

  predicate FromPlan(plan: Plan, b: Binding) {
    && b.caseVersion in plan.cases && b.environment in plan.environments && b.browserProfile in plan.browserProfiles
    && b.identityProfile in plan.identityProfiles && b.dataProfile in plan.dataProfiles
    && b.caseVersion in plan.profiles && plan.profiles[b.caseVersion] == (b.executionProfile, b.fixtureBlueprint)
  }

  function KeySource(b: Binding): Json.Json {
    Json.Obj(map[
      "caseVersionId" := Json.Str(b.caseVersion), "environmentId" := Json.Str(b.environment),
      "browserProfileVersionId" := Json.Str(b.browserProfile),
      "identityProfileVersionId" := Json.Str(b.identityProfile),
      "dataProfileVersionId" := Json.Str(b.dataProfile), "parameterDigest" := Json.Str(b.parameterDigest)])
  }

  function DependencySource(b: Binding): Json.Json {
    Json.Obj(map[
      "caseVersionId" := Json.Str(b.caseVersion), "executionProfileVersionId" := Json.Str(b.executionProfile),
      "fixtureBlueprintVersionId" := Json.Str(b.fixtureBlueprint),
      "identityProfileVersionId" := Json.Str(b.identityProfile),
      "environmentId" := Json.Str(b.environment), "browserProfileVersionId" := Json.Str(b.browserProfile),
      "dataProfileVersionId" := Json.Str(b.dataProfile)])
  }

  ghost predicate CanonicalDigests(sha256: string -> string, b: Binding) {
    b.unitKey == sha256(Json.Text(KeySource(b))) && b.dependencyDigest == sha256(Json.Text(DependencySource(b)))
  }

  /** The unit checks of the manifest insert guard. */
  ghost predicate Admissible(sha256: string -> string, plan: Plan, units: seq<Entry>) {
    && ValidUnits(units)
    && forall i :: 0 <= i < |units| ==> FromPlan(plan, units[i].binding) && CanonicalDigests(sha256, units[i].binding)
  }

  /** With a collision-free hash, a unit key stands for exactly one binding under a plan, so
      an admissible list never runs the same combination twice. */
  lemma KeyIdentifiesBinding(sha256: string -> string, plan: Plan, b: Binding, c: Binding)
    requires forall x, y :: sha256(x) == sha256(y) ==> x == y
    requires FromPlan(plan, b) && FromPlan(plan, c) && CanonicalDigests(sha256, b) && CanonicalDigests(sha256, c)
    ensures b.unitKey == c.unitKey <==> b == c
  {
    Json.DigestIdentifiesValue(sha256, KeySource(b), KeySource(c));
    if b.unitKey == c.unitKey { KeySourceDetermines(b, c); }
  }

  lemma KeySourceDetermines(b: Binding, c: Binding)
    requires KeySource(b) == KeySource(c)
    ensures b.caseVersion == c.caseVersion && b.environment == c.environment && b.browserProfile == c.browserProfile
    ensures b.identityProfile == c.identityProfile && b.dataProfile == c.dataProfile
    ensures b.parameterDigest == c.parameterDigest
  {
    KeyMembers(b);
    KeyMembers(c);
  }

  lemma KeyMembers(b: Binding)
    ensures var m := KeySource(b).members;
      && "caseVersionId" in m && m["caseVersionId"] == Json.Str(b.caseVersion)
      && "environmentId" in m && m["environmentId"] == Json.Str(b.environment)
      && "browserProfileVersionId" in m && m["browserProfileVersionId"] == Json.Str(b.browserProfile)
      && "identityProfileVersionId" in m && m["identityProfileVersionId"] == Json.Str(b.identityProfile)
      && "dataProfileVersionId" in m && m["dataProfileVersionId"] == Json.Str(b.dataProfile)
      && "parameterDigest" in m && m["parameterDigest"] == Json.Str(b.parameterDigest)
  {
    assert "caseVersionId"[0] != "environmentId"[0];
  }

  // --------------------------------------------------------- what the digests are over

  /** "key":"value" pairs, separated by commas. */
  function Pairs(keys: seq<string>, values: seq<string>): string
    requires |keys| == |values|
  {
    if keys == [] then ""
    else
      var one := Json.Quoted(keys[0]) + ":" + Json.Quoted(values[0]);
      if |keys| == 1 then one else one + "," + Pairs(keys[1..], values[1..])
  }

  const KEY_FIELDS := [
    "browserProfileVersionId", "caseVersionId", "dataProfileVersionId", "environmentId",
    "identityProfileVersionId", "parameterDigest"]

  const DEPENDENCY_FIELDS := [
    "browserProfileVersionId", "caseVersionId", "dataProfileVersionId", "environmentId",
    "executionProfileVersionId", "fixtureBlueprintVersionId", "identityProfileVersionId"]

  /** The text a unit key is the digest of, member by member as printed. */
  function KeyText(b: Binding): string {
    var values := [
      b.browserProfile, b.caseVersion, b.dataProfile, b.environment, b.identityProfile, b.parameterDigest];
    "{" + Pairs(KEY_FIELDS, values) + "}"
  }

  function DependencyText(b: Binding): string {
    var values := [
      b.browserProfile, b.caseVersion, b.dataProfile, b.environment,
      b.executionProfile, b.fixtureBlueprint, b.identityProfile];
    "{" + Pairs(DEPENDENCY_FIELDS, values) + "}"
  }

  ghost predicate HoldsStrings(members: map<string, Json.Json>, keys: seq<string>, values: seq<string>) {
    |keys| == |values| && forall i :: 0 <= i < |keys| ==> keys[i] in members && members[keys[i]] == Json.Str(values[i])
  }

  lemma {:induction false} PairsArePrinted(members: map<string, Json.Json>, keys: seq<string>, values: seq<string>)
    requires HoldsStrings(members, keys, values)
    ensures Json.MembersText(members, keys, Json.Obj(members)) == Pairs(keys, values)
  {
    if keys != [] {
      forall i | 0 <= i < |keys[1..]|
        ensures keys[1..][i] in members && members[keys[1..][i]] == Json.Str(values[1..][i])
      {
        assert keys[1..][i] == keys[i + 1];
      }
      PairsArePrinted(members, keys[1..], values[1..]);
    }
  }

  lemma StringsText(members: map<string, Json.Json>, keys: seq<string>, values: seq<string>)
    requires HoldsStrings(members, keys, values) && forall k :: k in keys <==> k in members
    requires forall i, j :: 0 <= i < j < |keys| ==> Json.Precedes(keys[i], keys[j])
    ensures Json.Text(Json.Obj(members)) == "{" + Pairs(keys, values) + "}"
  {
    Json.MembersPrintInOrder(members, keys);
    PairsArePrinted(members, keys, values);
  }

  lemma FirstDiffers(a: string, b: string)
    requires a != "" && b != "" && a[0] < b[0]
    ensures Json.Precedes(a, b)
  {
    assert Json.FirstSmallerAt(a, b, 0);
  }

  lemma KeyFieldsInOrder()
    ensures forall i, j :: 0 <= i < j < |KEY_FIELDS| ==> Json.Precedes(KEY_FIELDS[i], KEY_FIELDS[j])
  {
    forall i, j | 0 <= i < j < |KEY_FIELDS| ensures Json.Precedes(KEY_FIELDS[i], KEY_FIELDS[j]) {
      FirstDiffers(KEY_FIELDS[i], KEY_FIELDS[j]);
    }
  }

  lemma KeyTextIsCanonical(b: Binding)
    ensures Json.Text(KeySource(b)) == KeyText(b)
  {
    KeyMembers(b);
    KeyFieldsInOrder();
    StringsText(KeySource(b).members, KEY_FIELDS,
      [b.browserProfile, b.caseVersion, b.dataProfile, b.environment, b.identityProfile, b.parameterDigest]);
  }

  lemma DependencyFieldsInOrder()
    ensures forall i, j :: 0 <= i < j < |DEPENDENCY_FIELDS| ==>
      Json.Precedes(DEPENDENCY_FIELDS[i], DEPENDENCY_FIELDS[j])
  {
    forall i, j | 0 <= i < j < |DEPENDENCY_FIELDS| ensures Json.Precedes(DEPENDENCY_FIELDS[i], DEPENDENCY_FIELDS[j]) {
      if i == 3 && j == 4 {
        assert Json.FirstSmallerAt(DEPENDENCY_FIELDS[3], DEPENDENCY_FIELDS[4], 1);
      } else {
        FirstDiffers(DEPENDENCY_FIELDS[i], DEPENDENCY_FIELDS[j]);
      }
    }
  }

  lemma DependencyTextIsCanonical(b: Binding)
    ensures Json.Text(DependencySource(b)) == DependencyText(b)
  {
    DependencyMembers(b);
    DependencyFieldsInOrder();
    StringsText(DependencySource(b).members, DEPENDENCY_FIELDS,
      [b.browserProfile, b.caseVersion, b.dataProfile, b.environment,
       b.executionProfile, b.fixtureBlueprint, b.identityProfile]);
  }

  lemma DependencyMembers(b: Binding)
    ensures HoldsStrings(DependencySource(b).members, DEPENDENCY_FIELDS,
      [b.browserProfile, b.caseVersion, b.dataProfile, b.environment,
       b.executionProfile, b.fixtureBlueprint, b.identityProfile])
    ensures forall k :: k in DEPENDENCY_FIELDS <==> k in DependencySource(b).members
  {
    DependencyFieldsInOrder();
    assert "environmentId"[1] != "executionProfileVersionId"[1];
  }

  /** A binding the plan allows, with the digests of its two texts. */
  ghost predicate Provenance(sha256: string -> string, plan: Plan, b: Binding) {
    && b.caseVersion in plan.cases && b.environment in plan.environments
    && b.browserProfile in plan.browserProfiles && b.identityProfile in plan.identityProfiles
    && b.dataProfile in plan.dataProfiles
    && b.caseVersion in plan.profiles
    && plan.profiles[b.caseVersion].0 == b.executionProfile && plan.profiles[b.caseVersion].1 == b.fixtureBlueprint
    && b.unitKey == sha256(KeyText(b)) && b.dependencyDigest == sha256(DependencyText(b))
  }

  /** The insert guard accepts exactly the valid lists whose units all come from the plan and
      carry the digests of these texts. */
  lemma AdmissibleExactly(sha256: string -> string, plan: Plan, units: seq<Entry>)
    ensures Admissible(sha256, plan, units) <==>
      ValidUnits(units) && forall i :: 0 <= i < |units| ==> Provenance(sha256, plan, units[i].binding)
  {
    forall i | 0 <= i < |units|
      ensures FromPlan(plan, units[i].binding) && CanonicalDigests(sha256, units[i].binding)
        <==> Provenance(sha256, plan, units[i].binding)
    {
      KeyTextIsCanonical(units[i].binding);
      DependencyTextIsCanonical(units[i].binding);
    }
  }
}
