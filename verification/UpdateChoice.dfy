/**
 The choice of an update. The status page and the update request scan the releases with two
 differently written loops; both pick the same release. Versions follow section 11 of
 Semantic Versioning 2.0.0, with build metadata as the last key.
 */
module UpdateChoice {
  import opened Wrappers

  // ----- the order of versions

  /** Negative, zero or positive, as the first operand comes before, with or after the second. */
  function CompareNat(a: nat, b: nat): int {
    a - b
  }

  function CompareText(a: string, b: string): int {
    if a == "" then (if b == "" then 0 else -1)
    else if b == "" then 1
    else if a[0] != b[0] then a[0] as int - b[0] as int
    else CompareText(a[1..], b[1..])
  }

  /** `zeros` counts leading zeros, which only build metadata may have. */
  datatype Identifier = Numeric(value: nat, zeros: nat) | Alphanumeric(text: string)

  function CompareIdentifier(a: Identifier, b: Identifier): int {
    match (a, b)
    case (Numeric(x, k), Numeric(y, l)) => if x != y then CompareNat(x, y) else CompareNat(k, l)
    case (Numeric(_, _), Alphanumeric(_)) => -1
    case (Alphanumeric(_), Numeric(_, _)) => 1
    case (Alphanumeric(s), Alphanumeric(t)) => CompareText(s, t)
  }

  /** Field by field; when all fields agree, more fields come after fewer. */
  function CompareFields(a: seq<Identifier>, b: seq<Identifier>): int {
    if a == [] then (if b == [] then 0 else -1)
    else if b == [] then 1
    else
      var first := CompareIdentifier(a[0], b[0]);
      if first != 0 then first else CompareFields(a[1..], b[1..])
  }

  datatype Version = Version(major: nat, minor: nat, patch: nat, pre: seq<Identifier>, build: seq<Identifier>)

  /** A version without a pre-release comes after the same version with one. */
  function ComparePre(a: seq<Identifier>, b: seq<Identifier>): int {
    if a == [] && b == [] then 0 else if a == [] then 1 else if b == [] then -1 else CompareFields(a, b)
  }

  function Compare(a: Version, b: Version): int {
    if a.major != b.major then CompareNat(a.major, b.major)
    else if a.minor != b.minor then CompareNat(a.minor, b.minor)
    else if a.patch != b.patch then CompareNat(a.patch, b.patch)
    else if ComparePre(a.pre, b.pre) != 0 then ComparePre(a.pre, b.pre)
    else CompareFields(a.build, b.build)
  }

  predicate Newer(a: Version, b: Version) {
    Compare(a, b) > 0
  }

  lemma {:induction false} TextOrder(a: string, b: string)
    ensures CompareText(a, b) == 0 <==> a == b
    ensures CompareText(a, b) < 0 <==> CompareText(b, a) > 0
  {
    if a != "" && b != "" && a[0] == b[0] {
      TextOrder(a[1..], b[1..]);
      assert a == [a[0]] + a[1..] && b == [b[0]] + b[1..];
    }
  }

  lemma {:induction false} TextTransitive(a: string, b: string, c: string)
    requires CompareText(a, b) <= 0 && CompareText(b, c) <= 0
    ensures CompareText(a, c) <= 0
  {
    if a != "" && b != "" && c != "" && a[0] == b[0] == c[0] {
      TextTransitive(a[1..], b[1..], c[1..]);
    }
  }

  lemma IdentifierOrder(a: Identifier, b: Identifier)
    ensures CompareIdentifier(a, b) == 0 <==> a == b
    ensures CompareIdentifier(a, b) < 0 <==> CompareIdentifier(b, a) > 0
  {
    if a.Alphanumeric? && b.Alphanumeric? {
      TextOrder(a.text, b.text);
    }
  }

  lemma IdentifierTransitive(a: Identifier, b: Identifier, c: Identifier)
    requires CompareIdentifier(a, b) <= 0 && CompareIdentifier(b, c) <= 0
    ensures CompareIdentifier(a, c) <= 0
  {
    if a.Alphanumeric? && b.Alphanumeric? && c.Alphanumeric? {
      TextTransitive(a.text, b.text, c.text);
    }
  }

  lemma {:induction false} FieldsOrder(a: seq<Identifier>, b: seq<Identifier>)
    ensures CompareFields(a, b) == 0 <==> a == b
    ensures CompareFields(a, b) < 0 <==> CompareFields(b, a) > 0
  {
    if a != [] && b != [] {
      IdentifierOrder(a[0], b[0]);
      IdentifierOrder(b[0], a[0]);
      FieldsOrder(a[1..], b[1..]);
      assert a == [a[0]] + a[1..] && b == [b[0]] + b[1..];
    }
  }

  lemma {:induction false} FieldsTransitive(a: seq<Identifier>, b: seq<Identifier>, c: seq<Identifier>)
    requires CompareFields(a, b) <= 0 && CompareFields(b, c) <= 0
    ensures CompareFields(a, c) <= 0
  {
    if a != [] && b != [] && c != [] {
      IdentifierOrder(a[0], b[0]);
      IdentifierOrder(b[0], c[0]);
      IdentifierOrder(a[0], c[0]);
      IdentifierTransitive(a[0], b[0], c[0]);
      if CompareIdentifier(a[0], c[0]) == 0 {
        IdentifierOrder(b[0], a[0]);
        assert a[0] == b[0] == c[0];
        FieldsTransitive(a[1..], b[1..], c[1..]);
      }
    }
  }

  /** The order of versions is total: any two compare, equal versions only with themselves, and it is transitive. */
  lemma VersionOrder(a: Version, b: Version)
    ensures Compare(a, b) == 0 <==> a == b
    ensures Compare(a, b) < 0 <==> Compare(b, a) > 0
  {
    FieldsOrder(a.pre, b.pre);
    FieldsOrder(b.pre, a.pre);
    FieldsOrder(a.build, b.build);
  }

  lemma PreTransitive(a: seq<Identifier>, b: seq<Identifier>, c: seq<Identifier>)
    requires ComparePre(a, b) <= 0 && ComparePre(b, c) <= 0
    ensures ComparePre(a, c) <= 0
    ensures ComparePre(a, c) == 0 ==> a == b == c
  {
    FieldsOrder(a, b);
    FieldsOrder(b, c);
    FieldsOrder(a, c);
    FieldsOrder(c, b);
    if a != [] && b != [] && c != [] {
      FieldsTransitive(a, b, c);
    }
  }

  lemma VersionTransitive(a: Version, b: Version, c: Version)
    requires Compare(a, b) <= 0 && Compare(b, c) <= 0
    ensures Compare(a, c) <= 0
  {
    FieldsOrder(a.pre, b.pre);
    FieldsOrder(b.pre, c.pre);
    hide CompareFields;
    if a.major == b.major == c.major && a.minor == b.minor == c.minor && a.patch == b.patch == c.patch {
      PreTransitive(a.pre, b.pre, c.pre);
      if ComparePre(a.pre, c.pre) == 0 {
        FieldsTransitive(a.build, b.build, c.build);
      }
    }
  }

  // ----- precedence, by the first difference

  ghost predicate TextBefore(a: string, b: string) {
    exists k: nat :: k <= |a| && k < |b| && a[..k] == b[..k] && (k == |a| || a[k] < b[k])
  }

  /** Numeric fields by value, and before all others; those as texts. */
  ghost predicate IdentifierBefore(a: Identifier, b: Identifier) {
    || (a.Numeric? && b.Numeric? && (a.value < b.value || (a.value == b.value && a.zeros < b.zeros)))
    || (a.Numeric? && b.Alphanumeric?)
    || (a.Alphanumeric? && b.Alphanumeric? && TextBefore(a.text, b.text))
  }

  ghost predicate FieldsBefore(a: seq<Identifier>, b: seq<Identifier>) {
    exists k: nat :: k <= |a| && k < |b| && a[..k] == b[..k] && (k == |a| || IdentifierBefore(a[k], b[k]))
  }

  /** Major, minor and patch in this order, then the pre-release, of which none is the greatest, then the build metadata. */
  ghost predicate Before(a: Version, b: Version) {
    || a.major < b.major
    || (a.major == b.major && a.minor < b.minor)
    || (a.major == b.major && a.minor == b.minor && a.patch < b.patch)
    || (a.major == b.major && a.minor == b.minor && a.patch == b.patch && a.pre != [] && (b.pre == [] || FieldsBefore(a.pre, b.pre)))
    || (a.major == b.major && a.minor == b.minor && a.patch == b.patch && a.pre == b.pre && FieldsBefore(a.build, b.build))
  }

  lemma {:induction false} TextByFirstDifference(a: string, b: string)
    ensures CompareText(a, b) < 0 <==> TextBefore(a, b)
    decreases |a|
  {
    if a == "" || b == "" || a[0] != b[0] {
      assert a[..0] == b[..0];
      assert forall k :: 0 < k <= |a| && k <= |b| ==> a[..k][0] == a[0] && b[..k][0] == b[0];
    } else {
      TextByFirstDifference(a[1..], b[1..]);
      if TextBefore(a[1..], b[1..]) {
        var k: nat :| k <= |a[1..]| && k < |b[1..]| && a[1..][..k] == b[1..][..k] && (k == |a[1..]| || a[1..][k] < b[1..][k]);
        assert a[..k + 1] == [a[0]] + a[1..][..k] && b[..k + 1] == [b[0]] + b[1..][..k];
      }
      if TextBefore(a, b) {
        var k: nat :| k <= |a| && k < |b| && a[..k] == b[..k] && (k == |a| || a[k] < b[k]);
        assert k > 0;
        assert a[1..][..k - 1] == a[..k][1..] && b[1..][..k - 1] == b[..k][1..];
      }
    }
  }

  lemma IdentifierByKind(a: Identifier, b: Identifier)
    ensures CompareIdentifier(a, b) < 0 <==> IdentifierBefore(a, b)
  {
    if a.Alphanumeric? && b.Alphanumeric? {
      TextByFirstDifference(a.text, b.text);
    }
  }

  lemma {:induction false} FieldsByFirstDifference(a: seq<Identifier>, b: seq<Identifier>)
    ensures CompareFields(a, b) < 0 <==> FieldsBefore(a, b)
    decreases |a|
  {
    hide CompareIdentifier, IdentifierBefore;
    if a == [] || b == [] || a[0] != b[0] {
      assert a[..0] == b[..0];
      if a != [] && b != [] {
        IdentifierOrder(a[0], b[0]);
        IdentifierByKind(a[0], b[0]);
      }
      assert forall k :: 0 < k <= |a| && k <= |b| ==> a[..k][0] == a[0] && b[..k][0] == b[0];
    } else {
      IdentifierOrder(a[0], b[0]);
      IdentifierByKind(a[0], a[0]);
      FieldsByFirstDifference(a[1..], b[1..]);
      if FieldsBefore(a[1..], b[1..]) {
        var k: nat :| k <= |a[1..]| && k < |b[1..]| && a[1..][..k] == b[1..][..k] && (k == |a[1..]| || IdentifierBefore(a[1..][k], b[1..][k]));
        assert a[..k + 1] == [a[0]] + a[1..][..k] && b[..k + 1] == [b[0]] + b[1..][..k];
      }
      if FieldsBefore(a, b) {
        var k: nat :| k <= |a| && k < |b| && a[..k] == b[..k] && (k == |a| || IdentifierBefore(a[k], b[k]));
        assert k > 0;
        assert a[1..][..k - 1] == a[..k][1..] && b[1..][..k - 1] == b[..k][1..];
      }
    }
  }

  /** The comparison is the precedence of Semantic Versioning 2.0.0, with build metadata as the last key. */
  lemma ComparesByPrecedence(a: Version, b: Version)
    ensures Compare(a, b) < 0 <==> Before(a, b)
    ensures Newer(a, b) <==> Before(b, a)
  {
    VersionOrder(b, a);
    OneWay(a, b);
    OneWay(b, a);
    hide Compare, Before;
  }

  lemma OneWay(a: Version, b: Version)
    ensures Compare(a, b) < 0 <==> Before(a, b)
  {
    FieldsOrder(a.pre, b.pre);
    FieldsByFirstDifference(a.pre, b.pre);
    FieldsByFirstDifference(a.build, b.build);
    hide CompareFields, FieldsBefore;
  }

  // ----- releases

  function Digits(n: nat): string {
    if n < 10 then [('0' as int + n) as char] else Digits(n / 10) + [('0' as int + n % 10) as char]
  }

  function IdentifierText(id: Identifier): string {
    match id
    case Numeric(value, zeros) => seq(zeros, i => '0') + Digits(value)
    case Alphanumeric(text) => text
  }

  function FieldsText(fields: seq<Identifier>): string {
    if fields == [] then ""
    else if |fields| == 1 then IdentifierText(fields[0])
    else IdentifierText(fields[0]) + "." + FieldsText(fields[1..])
  }

  function VersionText(v: Version): string {
    Digits(v.major) + "." + Digits(v.minor) + "." + Digits(v.patch)
    + (if v.pre == [] then "" else "-" + FieldsText(v.pre))
    + (if v.build == [] then "" else "+" + FieldsText(v.build))
  }

  function ReleaseArchive(v: Version): string {
    "iphoneloadly-v" + VersionText(v) + "-linux-amd64.tar.gz"
  }

  datatype Asset = Asset(name: string, digest: Option<string>)

  /** `version` is what the tag parses to, if it does. */
  datatype Release = Release(draft: bool, prerelease: bool, version: Option<Version>, assets: seq<Asset>)

  function FirstNamed(assets: seq<Asset>, name: string): Option<Asset> {
    if assets == [] then None else if assets[0].name == name then Some(assets[0]) else FirstNamed(assets[1..], name)
  }

  predicate IsHexDigit(c: char) {
    '0' <= c <= '9' || 'a' <= c <= 'f' || 'A' <= c <= 'F'
  }

  /** The 64 hexadecimal digits after `sha256:`, when the digest has this form. */
  function Sha256Of(digest: Option<string>): Option<string> {
    if digest.Some? && "sha256:" <= digest.value && |digest.value| == 71 && (forall i :: 7 <= i < 71 ==> IsHexDigit(digest.value[i]))
    then Some(digest.value[7..])
    else None
  }

  /** The digest the first archive asset of the release announces. */
  function ArchiveDigest(release: Release, version: Version): Option<string> {
    var archive := FirstNamed(release.assets, ReleaseArchive(version));
    if archive.Some? then Sha256Of(archive.value.digest) else None
  }

  predicate HasAsset(release: Release, name: string) {
    exists i :: 0 <= i < |release.assets| && release.assets[i].name == name
  }

  lemma FirstNamedIffPresent(assets: seq<Asset>, name: string)
    ensures FirstNamed(assets, name).Some? <==> exists i :: 0 <= i < |assets| && assets[i].name == name
  {
    if assets != [] {
      FirstNamedIffPresent(assets[1..], name);
      if exists i :: 0 <= i < |assets[1..]| && assets[1..][i].name == name {
        var i: nat :| i < |assets[1..]| && assets[1..][i].name == name;
        assert assets[i + 1].name == name;
      }
      if assets[0].name != name && exists i :: 0 <= i < |assets| && assets[i].name == name {
        var i: nat :| i < |assets| && assets[i].name == name;
        assert assets[1..][i - 1].name == name;
      }
    }
  }

  /** An update must be published, newer, and verifiable; a pre-release only if the current version is one. */
  predicate Eligible(current: Version, release: Release) {
    && !release.draft && (release.prerelease ==> current.pre != [])
    && release.version.Some? && Newer(release.version.value, current)
    && ArchiveDigest(release, release.version.value).Some?
    && HasAsset(release, ReleaseArchive(release.version.value) + ".sha256")
  }

  /** Among the first `n` releases: the greatest eligible version, and the first release that has it. */
  ghost predicate IsBest(current: Version, releases: seq<Release>, n: nat, best: nat) {
    && best < n <= |releases| && Eligible(current, releases[best])
    && (forall k :: 0 <= k < n && Eligible(current, releases[k]) ==> !Newer(releases[k].version.value, releases[best].version.value))
    && (forall k :: 0 <= k < best && Eligible(current, releases[k]) ==> Newer(releases[best].version.value, releases[k].version.value))
  }

  ghost predicate NoneEligible(current: Version, releases: seq<Release>, n: nat) {
    n <= |releases| && forall k :: 0 <= k < n ==> !Eligible(current, releases[k])
  }

  /** At most one release is the best. */
  lemma BestIsUnique(current: Version, releases: seq<Release>, n: nat, one: nat, two: nat)
    requires IsBest(current, releases, n, one) && IsBest(current, releases, n, two)
    ensures one == two
  {
    hide Compare, ArchiveDigest, HasAsset, ReleaseArchive;
    VersionOrder(releases[one].version.value, releases[two].version.value);
  }

  ghost predicate BestSoFar(current: Version, releases: seq<Release>, n: nat, best: Option<nat>) {
    if best.Some? then IsBest(current, releases, n, best.value) else NoneEligible(current, releases, n)
  }

  /** What the next release changes: it becomes the best if it is eligible and strictly newer. */
  ghost predicate Displaces(current: Version, releases: seq<Release>, i: nat, best: Option<nat>)
    requires i < |releases|
  {
    && Eligible(current, releases[i])
    && (best.Some? && best.value < |releases| && releases[best.value].version.Some? ==>
          Newer(releases[i].version.value, releases[best.value].version.value))
  }

  lemma ConsiderNext(current: Version, releases: seq<Release>, i: nat, best: Option<nat>) returns (next: Option<nat>)
    requires i < |releases| && BestSoFar(current, releases, i, best)
    ensures next == if Displaces(current, releases, i, best) then Some(i) else best
    ensures BestSoFar(current, releases, i + 1, next)
  {
    hide Compare, ArchiveDigest, HasAsset, ReleaseArchive;
    if !Displaces(current, releases, i, best) {
      next := best;
    } else {
      next := Some(i);
      forall k | 0 <= k <= i && Eligible(current, releases[k])
        ensures !Newer(releases[k].version.value, releases[i].version.value)
        ensures k < i ==> Newer(releases[i].version.value, releases[k].version.value)
      {
        var top, here := releases[i].version.value, releases[k].version.value;
        VersionOrder(here, top);
        VersionOrder(top, here);
        if k < i {
          NewerThanAll(top, releases[best.value].version.value, here);
        }
      }
    }
  }

  lemma NewerThanAll(top: Version, middle: Version, low: Version)
    requires Newer(top, middle) && !Newer(low, middle)
    ensures Newer(top, low)
  {
    hide Compare;
    if Compare(top, low) <= 0 {
      VersionTransitive(top, low, middle);
    }
  }

  // ----- the two loops

  /** The loop of `info`. */
  method InfoCandidate(current: Version, releases: seq<Release>) returns (candidate: Option<(Version, Release)>, ghost best: Option<nat>)
    ensures candidate.None? <==> NoneEligible(current, releases, |releases|)
    ensures candidate.Some? ==>
              && best.Some? && IsBest(current, releases, |releases|, best.value)
              && candidate.value == (releases[best.value].version.value, releases[best.value])
  {
    candidate, best := None, None;
    for i := 0 to |releases|
      invariant BestSoFar(current, releases, i, best) && (best.Some? <==> candidate.Some?)
      invariant best.Some? ==> best.value < |releases| && releases[best.value].version.Some?
      invariant best.Some? ==> candidate.value == (releases[best.value].version.value, releases[best.value])
    {
      ghost var next := ConsiderNext(current, releases, i, best);
      hide BestSoFar, IsBest, Compare, Sha256Of, FirstNamed, ReleaseArchive;
      var release := releases[i];
      if release.draft || (release.prerelease && current.pre == []) || release.version.None? {
        continue;
      }
      var version := release.version.value;
      if Compare(version, current) <= 0 {
        continue;
      }
      var archive := FirstNamed(release.assets, ReleaseArchive(version));
      var checksum := FirstNamed(release.assets, ReleaseArchive(version) + ".sha256");
      FirstNamedIffPresent(release.assets, ReleaseArchive(version) + ".sha256");
      if archive.Some? && Sha256Of(archive.value.digest).Some? && checksum.Some?
         && (candidate.None? || Newer(version, candidate.value.0)) {
        candidate, best := Some((version, release)), Some(i);
      }
    }
    SomeBestIsEligible(current, releases, best);
  }

  lemma SomeBestIsEligible(current: Version, releases: seq<Release>, best: Option<nat>)
    requires BestSoFar(current, releases, |releases|, best)
    ensures best.Some? <==> !NoneEligible(current, releases, |releases|)
  {
    hide Eligible;
  }

  /** The loop of `request`. */
  method RequestCandidate(current: Version, releases: seq<Release>) returns (candidate: Option<(Version, string)>, ghost best: Option<nat>)
    ensures candidate.None? <==> NoneEligible(current, releases, |releases|)
    ensures candidate.Some? ==>
              && best.Some? && IsBest(current, releases, |releases|, best.value)
              && candidate.value.0 == releases[best.value].version.value
              && Some(candidate.value.1) == ArchiveDigest(releases[best.value], candidate.value.0)
  {
    candidate, best := None, None;
    for i := 0 to |releases|
      invariant BestSoFar(current, releases, i, best) && (best.Some? <==> candidate.Some?)
      invariant best.Some? ==> best.value < |releases| && releases[best.value].version.Some?
      invariant best.Some? ==>
                  && candidate.value.0 == releases[best.value].version.value
                  && Some(candidate.value.1) == ArchiveDigest(releases[best.value], candidate.value.0)
    {
      ghost var next := ConsiderNext(current, releases, i, best);
      hide BestSoFar, IsBest, Compare, Sha256Of, FirstNamed, ReleaseArchive;
      var release := releases[i];
      if release.draft || (release.prerelease && current.pre == []) || release.version.None? {
        continue;
      }
      var version := release.version.value;
      if Compare(version, current) <= 0 {
        continue;
      }
      var archive := FirstNamed(release.assets, ReleaseArchive(version));
      if archive.None? {
        continue;
      }
      var digest := Sha256Of(archive.value.digest);
      if digest.None? {
        continue;
      }
      if HasAsset(release, ReleaseArchive(version) + ".sha256") {
        if candidate.Some? {
          VersionOrder(version, candidate.value.0);
          VersionOrder(candidate.value.0, version);
        }
        if candidate.Some? && Compare(candidate.value.0, version) >= 0 {
          continue;
        }
        candidate, best := Some((version, digest.value)), Some(i);
      }
    }
    SomeBestIsEligible(current, releases, best);
  }

  // ----- what may be offered, written out

  /** The first asset of that name announces this digest. */
  ghost predicate Announces(assets: seq<Asset>, name: string, digest: string) {
    exists i :: 0 <= i < |assets| && assets[i].name == name && (forall k :: 0 <= k < i ==> assets[k].name != name)
                && assets[i].digest == Some("sha256:" + digest)
  }

  /**
   A published release after the current version, whose archive announces 64 hexadecimal digits and
   has a checksum file beside it; a pre-release only for a current pre-release.
   */
  ghost predicate Offers(current: Version, release: Release, version: Version, digest: string) {
    && !release.draft && (release.prerelease ==> current.pre != [])
    && release.version == Some(version) && Before(current, version)
    && Announces(release.assets, ReleaseArchive(version), digest)
    && |digest| == 64 && (forall i :: 0 <= i < 64 ==> IsHexDigit(digest[i]))
    && exists i :: 0 <= i < |release.assets| && release.assets[i].name == ReleaseArchive(version) + ".sha256"
  }

  lemma {:induction false} FirstNamedIs(assets: seq<Asset>, name: string, i: nat)
    requires i < |assets| && assets[i].name == name && forall k :: 0 <= k < i ==> assets[k].name != name
    ensures FirstNamed(assets, name) == Some(assets[i])
    decreases i
  {
    if i > 0 {
      FirstNamedIs(assets[1..], name, i - 1);
    }
  }

  lemma {:induction false} FirstNamedAt(assets: seq<Asset>, name: string) returns (i: nat)
    requires FirstNamed(assets, name).Some?
    ensures i < |assets| && assets[i] == FirstNamed(assets, name).value && assets[i].name == name
    ensures forall k :: 0 <= k < i ==> assets[k].name != name
  {
    if assets[0].name == name {
      i := 0;
    } else {
      var rest := FirstNamedAt(assets[1..], name);
      i := rest + 1;
      forall k | 0 <= k < i ensures assets[k].name != name {
        assert k > 0 ==> assets[k] == assets[1..][k - 1];
      }
    }
  }

  lemma DigestAnnounced(assets: seq<Asset>, name: string, digest: string)
    ensures Announces(assets, name, digest) && |digest| == 64 && (forall i :: 0 <= i < 64 ==> IsHexDigit(digest[i]))
        <==> FirstNamed(assets, name).Some? && Sha256Of(FirstNamed(assets, name).value.digest) == Some(digest)
  {
    hide IsHexDigit, FirstNamed;
    if Announces(assets, name, digest) {
      var i: nat :| i < |assets| && assets[i].name == name && (forall k :: 0 <= k < i ==> assets[k].name != name)
                    && assets[i].digest == Some("sha256:" + digest);
      FirstNamedIs(assets, name, i);
      DigestOf(digest);
    }
    if FirstNamed(assets, name).Some? && Sha256Of(FirstNamed(assets, name).value.digest) == Some(digest) {
      var i := FirstNamedAt(assets, name);
      DigestParts(assets[i].digest.value);
    }
  }

  lemma DigestOf(digest: string)
    ensures Sha256Of(Some("sha256:" + digest)) == Some(digest)
        <==> |digest| == 64 && forall i :: 0 <= i < 64 ==> IsHexDigit(digest[i])
  {
    hide IsHexDigit;
    var text := "sha256:" + digest;
    assert text[7..] == digest;
    forall i | 0 <= i < |digest| ensures text[i + 7] == digest[i] {
    }
    if |digest| == 64 && Sha256Of(Some(text)) == Some(digest) {
      forall i | 0 <= i < 64 ensures IsHexDigit(digest[i]) {
        assert IsHexDigit(text[i + 7]);
      }
    }
  }

  lemma DigestParts(text: string)
    requires Sha256Of(Some(text)).Some?
    ensures var digest := Sha256Of(Some(text)).value;
            text == "sha256:" + digest && |digest| == 64 && forall i :: 0 <= i < 64 ==> IsHexDigit(digest[i])
  {
    hide IsHexDigit;
    var digest := text[7..];
    forall i | 0 <= i < 64 ensures IsHexDigit(digest[i]) {
      assert IsHexDigit(text[i + 7]);
    }
  }

  /** Eligible releases are exactly those that may be offered, with the digest that the code reads. */
  lemma EligibleIsOffered(current: Version, release: Release, digest: string)
    requires release.version.Some?
    ensures Offers(current, release, release.version.value, digest)
        <==> Eligible(current, release) && ArchiveDigest(release, release.version.value) == Some(digest)
  {
    hide Compare, Before, ReleaseArchive, IsHexDigit, FirstNamed, Sha256Of, Announces;
    ComparesByPrecedence(release.version.value, current);
    DigestAnnounced(release.assets, ReleaseArchive(release.version.value), digest);
  }

  /**
   The page offers and the request takes the same release, with the digest that release announces:
   one that may be offered and that no other such release is after, if there is any.
   */
  method OfferAndTake(current: Version, releases: seq<Release>) returns (offer: Option<(Version, Release)>, taken: Option<(Version, string)>)
    ensures offer.Some? <==> taken.Some?
    ensures offer.Some? ==>
              && offer.value.1 in releases && offer.value.0 == taken.value.0
              && Offers(current, offer.value.1, taken.value.0, taken.value.1)
              && forall r, v, digest :: r in releases && Offers(current, r, v, digest) ==> !Before(offer.value.0, v)
    ensures offer.None? ==> forall r, v, digest :: r in releases ==> !Offers(current, r, v, digest)
  {
    hide Offers, Compare, Before, ReleaseArchive, ArchiveDigest, HasAsset, Eligible;
    ghost var one, two;
    offer, one := InfoCandidate(current, releases);
    taken, two := RequestCandidate(current, releases);
    forall r, v, digest | r in releases && Offers(current, r, v, digest)
      ensures Eligible(current, r) && r.version == Some(v)
    {
      OffersItsVersion(current, r, v, digest);
      EligibleIsOffered(current, r, digest);
    }
    if offer.Some? {
      BestIsUnique(current, releases, |releases|, one.value, two.value);
      EligibleHasVersion(current, offer.value.1);
      EligibleIsOffered(current, offer.value.1, taken.value.1);
      forall r, v, digest | r in releases && Offers(current, r, v, digest) ensures !Before(offer.value.0, v) {
        ComparesByPrecedence(v, offer.value.0);
      }
    }
  }

  lemma EligibleHasVersion(current: Version, release: Release)
    requires Eligible(current, release)
    ensures release.version.Some?
  {
  }

  lemma OffersItsVersion(current: Version, release: Release, version: Version, digest: string)
    requires Offers(current, release, version, digest)
    ensures release.version == Some(version)
  {
  }
}
