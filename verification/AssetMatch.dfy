/** Choosing the release asset that a source's pattern names: `wildcard_match` and `match_ipa_asset`. */
module AssetMatch {
  import opened Wrappers

  function LowerChar(c: char): char {
    if 'A' <= c <= 'Z' then c - 'A' + 'a' else c
  }

  /** `to_ascii_lowercase`. */
  function Lower(s: string): (lower: string)
    ensures |lower| == |s|
    ensures forall i :: 0 <= i < |s| ==> lower[i] == LowerChar(s[i])
  {
    seq(|s|, i requires 0 <= i < |s| => LowerChar(s[i]))
  }

  const UPPER: string := "ABCDEFGHIJKLMNOPQRSTUVWXYZ"
  const LOWER: string := "abcdefghijklmnopqrstuvwxyz"

  /** Equal, or the two cases of one letter. */
  predicate SameLetter(c: char, d: char) {
    c == d || exists k :: 0 <= k < 26 && (c == UPPER[k] || c == LOWER[k]) && (d == UPPER[k] || d == LOWER[k])
  }

  predicate SameButForCase(a: string, b: string) {
    |a| == |b| && forall i :: 0 <= i < |a| ==> SameLetter(a[i], b[i])
  }

  lemma Alphabet(k: nat)
    requires k < 26
    ensures UPPER[k] as int == 'A' as int + k && LOWER[k] as int == 'a' as int + k
  {
    assert forall i :: 0 <= i < 26 ==> UPPER[i] as int == 'A' as int + i && LOWER[i] as int == 'a' as int + i;
  }

  lemma LetterLowers(k: nat, c: char)
    requires k < 26 && (c == UPPER[k] || c == LOWER[k])
    ensures LowerChar(c) == LOWER[k]
  {
    Alphabet(k);
  }

  lemma LoweredLetter(c: char) returns (k: nat)
    requires LowerChar(c) != c
    ensures k < 26 && c == UPPER[k] && LowerChar(c) == LOWER[k]
  {
    k := c as int - 'A' as int;
    Alphabet(k);
  }

  lemma LowerLetter(c: char, d: char)
    ensures LowerChar(c) == LowerChar(d) <==> SameLetter(c, d)
  {
    if c != d {
      if LowerChar(c) == LowerChar(d) {
        var k;
        if LowerChar(c) != c {
          k := LoweredLetter(c);
          if LowerChar(d) != d {
            var m := LoweredLetter(d);
            Alphabet(k);
            Alphabet(m);
          }
        } else {
          k := LoweredLetter(d);
        }
      } else if k: nat :| k < 26 && (c == UPPER[k] || c == LOWER[k]) && (d == UPPER[k] || d == LOWER[k]) {
        LetterLowers(k, c);
        LetterLowers(k, d);
      }
    }
  }

  /** Lower case tells apart exactly what differs in more than case, and leaves lower-case letters as they are. */
  lemma LowerIgnoresCase(a: string, b: string)
    ensures Lower(a) == Lower(b) <==> SameButForCase(a, b)
    ensures (forall i :: 0 <= i < |a| ==> a[i] !in UPPER) ==> Lower(a) == a
  {
    forall i | 0 <= i < |a| && i < |b| ensures LowerChar(a[i]) == LowerChar(b[i]) <==> SameLetter(a[i], b[i]) {
      LowerLetter(a[i], b[i]);
    }
    if Lower(a) == Lower(b) {
      forall i | 0 <= i < |a| ensures SameLetter(a[i], b[i]) {
        assert Lower(a)[i] == Lower(b)[i];
      }
    }
    forall i | 0 <= i < |a| && a[i] !in UPPER ensures LowerChar(a[i]) == a[i] {
      if LowerChar(a[i]) != a[i] {
        var k := LoweredLetter(a[i]);
      }
    }
  }

  /** `split('*')`. */
  function SplitStar(pattern: string): (parts: seq<string>)
    ensures parts != []
  {
    if pattern == "" then [""]
    else
      var parts := SplitStar(pattern[1..]);
      if pattern[0] == '*' then [""] + parts else [[pattern[0]] + parts[0]] + parts[1..]
  }

  predicate At(value: string, offset: nat, part: string) {
    offset + |part| <= |value| && value[offset..offset + |part|] == part
  }

  predicate EndsWith(value: string, part: string) {
    |part| <= |value| && value[|value| - |part|..] == part
  }

  /** The parts occur in this order, without overlapping, between two offsets. */
  ghost predicate Fits(value: string, start: nat, parts: seq<string>, end: nat)
    decreases |parts|
  {
    if parts == [] then start <= end
    else exists k: nat :: start <= k && k + |parts[0]| <= end && At(value, k, parts[0])
                          && Fits(value, k + |parts[0]|, parts[1..], end)
  }

  /** `value[offset..].find(part)`, as an offset into `value`. */
  method Find(value: string, offset: nat, part: string) returns (found: Option<nat>)
    requires offset <= |value|
    ensures found.Some? ==> offset <= found.value && At(value, found.value, part)
                            && forall k :: offset <= k < found.value ==> !At(value, k, part)
    ensures found == None ==> forall k :: offset <= k ==> !At(value, k, part)
  {
    var k := offset;
    while k + |part| <= |value|
      invariant offset <= k
      invariant forall m :: offset <= m < k ==> !At(value, m, part)
    {
      if value[k..k + |part|] == part {
        return Some(k);
      }
      k := k + 1;
    }
    return None;
  }

  /** What the code demands of a value once both sides are in lower case. */
  ghost predicate Accepts(parts: seq<string>, value: string)
    requires parts != []
  {
    if |parts| == 1 then value == parts[0]
    else
      && parts[0] <= value && EndsWith(value, parts[|parts| - 1])
      && Fits(value, |parts[0]|, Middle(parts), |value|)
  }

  function Middle(parts: seq<string>): seq<string>
    requires |parts| > 1
  {
    parts[1..|parts| - 1]
  }

  /** Where taking the first occurrence of every part ends. */
  ghost function GreedyEnd(value: string, start: nat, parts: seq<string>): (end: Option<nat>)
    ensures end.Some? ==> start <= end.value
    decreases |parts|
  {
    if parts == [] then Some(start)
    else if exists k: nat :: start <= k && At(value, k, parts[0]) then
      GreedyEnd(value, FirstAt(value, start, parts[0]) + |parts[0]|, parts[1..])
    else None
  }

  ghost function FirstAt(value: string, start: nat, part: string): (k: nat)
    requires exists k: nat :: start <= k && At(value, k, part)
    ensures start <= k && At(value, k, part)
    ensures forall m: nat :: start <= m < k ==> !At(value, m, part)
    decreases |value| - start
  {
    if At(value, start, part) then start
    else
      assert start < |value|;
      FirstAt(value, start + 1, part)
  }

  lemma FitAt(value: string, start: nat, parts: seq<string>, end: nat) returns (k: nat)
    requires parts != [] && Fits(value, start, parts, end)
    ensures start <= k && k + |parts[0]| <= end && At(value, k, parts[0]) && Fits(value, k + |parts[0]|, parts[1..], end)
  {
    k :| start <= k && k + |parts[0]| <= end && At(value, k, parts[0]) && Fits(value, k + |parts[0]|, parts[1..], end);
  }

  lemma {:induction false} FitsMakesGreedy(value: string, start: nat, parts: seq<string>, end: nat)
    requires Fits(value, start, parts, end)
    ensures GreedyEnd(value, start, parts).Some? && GreedyEnd(value, start, parts).value <= end
    decreases |parts|
  {
    hide Fits, GreedyEnd, FirstAt;
    if parts == [] {
      FitsWithin(value, start, parts, end);
      GreedyDone(value, start);
    } else {
      var k := FitAt(value, start, parts, end);
      var first := FirstAt(value, start, parts[0]);
      GreedyStep(value, start, parts, Some(first));
      FitsEarlier(value, first + |parts[0]|, k + |parts[0]|, parts[1..], end);
      FitsMakesGreedy(value, first + |parts[0]|, parts[1..], end);
    }
  }

  lemma {:induction false} GreedyMakesFits(value: string, start: nat, parts: seq<string>, end: nat)
    requires GreedyEnd(value, start, parts).Some? && GreedyEnd(value, start, parts).value <= end
    ensures Fits(value, start, parts, end)
    decreases |parts|
  {
    if parts != [] {
      var first := FirstAt(value, start, parts[0]);
      GreedyMakesFits(value, first + |parts[0]|, parts[1..], end);
      assert At(value, first, parts[0]);
    }
  }

  /** Greedy placement ends first: the parts fit before `end` exactly if the greedy ones do. */
  lemma GreedyIsEarliest(value: string, start: nat, parts: seq<string>, end: nat)
    ensures Fits(value, start, parts, end) <==> GreedyEnd(value, start, parts).Some? && GreedyEnd(value, start, parts).value <= end
  {
    if Fits(value, start, parts, end) {
      FitsMakesGreedy(value, start, parts, end);
    }
    if GreedyEnd(value, start, parts).Some? && GreedyEnd(value, start, parts).value <= end {
      GreedyMakesFits(value, start, parts, end);
    }
  }

  lemma {:induction false} FitsEarlier(value: string, early: nat, late: nat, parts: seq<string>, end: nat)
    requires early <= late && Fits(value, late, parts, end)
    ensures Fits(value, early, parts, end)
  {
    if parts != [] {
      var k: nat :| late <= k && k + |parts[0]| <= end && At(value, k, parts[0]) && Fits(value, k + |parts[0]|, parts[1..], end);
      assert early <= k;
    }
  }

  /** `wildcard_match`. */
  method WildcardMatch(pattern: string, value: string) returns (matched: bool)
    ensures matched <==> Accepts(SplitStar(Lower(pattern)), Lower(value))
  {
    hide GreedyEnd, FirstAt, Fits, SplitStar, Lower;
    var p, v := Lower(pattern), Lower(value);
    var parts := SplitStar(p);
    if |parts| == 1 {
      SplitPlain(p);
      return v == p;
    }
    var last := parts[|parts| - 1];
    if !(parts[0] <= v) || !EndsWith(v, last) {
      return false;
    }
    var offset: nat := |parts[0]|;
    var i := 1;
    while i < |parts| - 1
      invariant 1 <= i <= |parts| - 1 && 0 <= offset <= |v|
      invariant GreedyEnd(v, |parts[0]|, Middle(parts)) == GreedyEnd(v, offset, parts[i..|parts| - 1])
    {
      var found := Find(v, offset, parts[i]);
      ghost var rest := parts[i..|parts| - 1];
      assert rest[0] == parts[i] && rest[1..] == parts[i + 1..|parts| - 1];
      GreedyStep(v, offset, rest, found);
      if found == None {
        GreedyIsEarliest(v, |parts[0]|, Middle(parts), |v|);
        return false;
      }
      offset := found.value + |parts[i]|;
      i := i + 1;
    }
    assert parts[i..|parts| - 1] == [];
    GreedyDone(v, offset);
    GreedyIsEarliest(v, |parts[0]|, Middle(parts), |v|);
    return true;
  }

  lemma GreedyStep(value: string, start: nat, parts: seq<string>, found: Option<nat>)
    requires parts != []
    requires found.Some? ==> start <= found.value && At(value, found.value, parts[0])
                             && forall k :: start <= k < found.value ==> !At(value, k, parts[0])
    requires found == None ==> forall k :: start <= k ==> !At(value, k, parts[0])
    ensures GreedyEnd(value, start, parts) ==
              if found == None then None else GreedyEnd(value, found.value + |parts[0]|, parts[1..])
  {
  }

  lemma GreedyDone(value: string, start: nat)
    ensures GreedyEnd(value, start, []) == Some(start)
  {
  }

  lemma {:induction false} SplitPlain(pattern: string)
    requires |SplitStar(pattern)| == 1
    ensures SplitStar(pattern) == [pattern]
    decreases |pattern|
  {
    if pattern != "" {
      SplitPlain(pattern[1..]);
      assert pattern == [pattern[0]] + pattern[1..];
    }
  }

  // ----- what a glob means

  /** A star stands for any run of characters, anything else for itself. */
  predicate Glob(pattern: string, value: string, start: nat)
    requires start <= |value|
    decreases |pattern|, |value| - start
  {
    if pattern == "" then start == |value|
    else if pattern[0] == '*' then
      Glob(pattern[1..], value, start) || (start < |value| && Glob(pattern, value, start + 1))
    else
      start < |value| && value[start] == pattern[0] && Glob(pattern[1..], value, start + 1)
  }

  /** The same, part by part. */
  ghost predicate PartsMatch(parts: seq<string>, value: string, start: nat)
    requires parts != []
    decreases |parts|
  {
    if |parts| == 1 then At(value, start, parts[0]) && start + |parts[0]| == |value|
    else
      && At(value, start, parts[0])
      && exists k: nat :: start + |parts[0]| <= k <= |value| && PartsMatch(parts[1..], value, k)
  }

  /** A leading star: the parts after it match here, or the star takes one character more. */
  lemma StarMatches(parts: seq<string>, value: string, start: nat)
    requires parts != [] && start <= |value|
    ensures PartsMatch([""] + parts, value, start)
        <==> PartsMatch(parts, value, start) || (start < |value| && PartsMatch([""] + parts, value, start + 1))
  {
    var all := [""] + parts;
    assert all[1..] == parts && all[0] == "";
    assert At(value, start, "") && (start < |value| ==> At(value, start + 1, ""));
    if PartsMatch(all, value, start) {
      var k := NextPart(all, value, start);
      if k > start {
        assert start + 1 <= k <= |value| && PartsMatch(parts, value, k);
      }
    }
  }

  lemma {:induction false} GlobIsParts(pattern: string, value: string, start: nat)
    requires start <= |value|
    ensures Glob(pattern, value, start) <==> PartsMatch(SplitStar(pattern), value, start)
    decreases |pattern|, |value| - start
  {
    if pattern == "" {
    } else if pattern[0] == '*' {
      GlobIsParts(pattern[1..], value, start);
      if start < |value| {
        GlobIsParts(pattern, value, start + 1);
      }
      StarMatches(SplitStar(pattern[1..]), value, start);
    } else {
      var parts := SplitStar(pattern[1..]);
      assert SplitStar(pattern)[1..] == parts[1..];
      if start < |value| {
        GlobIsParts(pattern[1..], value, start + 1);
        AtNext(value, start, pattern[0], parts[0]);
      }
    }
  }

  lemma AtNext(value: string, start: nat, c: char, part: string)
    requires start < |value|
    ensures At(value, start, [c] + part) <==> value[start] == c && At(value, start + 1, part)
  {
    if start + 1 + |part| <= |value| {
      assert value[start..start + 1 + |part|] == [value[start]] + value[start + 1..start + 1 + |part|];
    }
  }

  /** The last part has room after the parts before it. */
  ghost predicate LeavesRoom(parts: seq<string>, value: string, start: nat)
    requires |parts| > 1
  {
    var last := parts[|parts| - 1];
    && At(value, start, parts[0]) && EndsWith(value, last)
    && Fits(value, start + |parts[0]|, Middle(parts), |value| - |last|)
  }

  lemma {:induction false} MatchLeavesRoom(parts: seq<string>, value: string, start: nat)
    requires |parts| > 1 && start <= |value| && PartsMatch(parts, value, start)
    ensures LeavesRoom(parts, value, start)
    decreases |parts|
  {
    var last, rest := parts[|parts| - 1], parts[1..];
    var k := NextPart(parts, value, start);
    if |rest| == 1 {
      assert Middle(parts) == [];
    } else {
      MiddleOfRest(parts);
      MatchLeavesRoom(rest, value, k);
      FitsWithin(value, k + |rest[0]|, Middle(rest), |value| - |last|);
      assert At(value, k, Middle(parts)[0]);
    }
  }

  lemma {:induction false} RoomMatches(parts: seq<string>, value: string, start: nat)
    requires |parts| > 1 && start <= |value| && LeavesRoom(parts, value, start)
    ensures PartsMatch(parts, value, start)
    decreases |parts|
  {
    var last, rest := parts[|parts| - 1], parts[1..];
    if |rest| == 1 {
      assert Middle(parts) == [];
      assert PartsMatch(rest, value, |value| - |last|);
    } else {
      MiddleOfRest(parts);
      var k := FitAt(value, start + |parts[0]|, Middle(parts), |value| - |last|);
      RoomMatches(rest, value, k);
    }
  }

  /** A glob match is one that leaves the last part room after the parts before it. */
  lemma PartsFit(parts: seq<string>, value: string, start: nat)
    requires |parts| > 1 && start <= |value|
    ensures PartsMatch(parts, value, start) <==> LeavesRoom(parts, value, start)
  {
    if PartsMatch(parts, value, start) {
      MatchLeavesRoom(parts, value, start);
    }
    if LeavesRoom(parts, value, start) {
      RoomMatches(parts, value, start);
    }
  }

  lemma NextPart(parts: seq<string>, value: string, start: nat) returns (k: nat)
    requires |parts| > 1 && PartsMatch(parts, value, start)
    ensures start + |parts[0]| <= k <= |value| && PartsMatch(parts[1..], value, k)
  {
    k :| start + |parts[0]| <= k <= |value| && PartsMatch(parts[1..], value, k);
  }

  lemma MiddleOfRest(parts: seq<string>)
    requires |parts| > 2
    ensures Middle(parts) != [] && Middle(parts)[0] == parts[1] && Middle(parts)[1..] == Middle(parts[1..])
  {
    assert Middle(parts[1..]) == parts[2..|parts| - 1];
  }

  lemma {:induction false} FitsWithin(value: string, start: nat, parts: seq<string>, end: nat)
    requires Fits(value, start, parts, end)
    ensures start <= end
    decreases |parts|
  {
    if parts != [] {
      var k: nat :| start <= k && k + |parts[0]| <= end && At(value, k, parts[0]) && Fits(value, k + |parts[0]|, parts[1..], end);
    }
  }

  /** The greedy end of the middle parts stays clear of the last part. */
  ghost predicate ClearOfSuffix(parts: seq<string>, value: string)
    requires parts != []
  {
    |parts| == 1 ||
    (var end := GreedyEnd(value, |parts[0]|, Middle(parts));
     end.Some? && end.value + |parts[|parts| - 1]| <= |value|)
  }

  /** Every glob match is accepted; an accepted value is a glob match unless a part overlaps the suffix. */
  lemma {:induction false} AcceptsVersusGlob(pattern: string, value: string)
    ensures Glob(pattern, value, 0) <==> Accepts(SplitStar(pattern), value) && ClearOfSuffix(SplitStar(pattern), value)
  {
    var parts := SplitStar(pattern);
    GlobIsParts(pattern, value, 0);
    if |parts| > 1 {
      var last := parts[|parts| - 1];
      PartsFit(parts, value, 0);
      GreedyIsEarliest(value, |parts[0]|, Middle(parts), |value|);
      if |last| <= |value| {
        GreedyIsEarliest(value, |parts[0]|, Middle(parts), |value| - |last|);
      }
    }
  }

  lemma SplitExample()
    ensures SplitStar("a*a") == ["a", "a"]
  {
    assert "a*a"[1..] == "*a" && "*a"[1..] == "a" && "a"[1..] == "";
    assert SplitStar("") == [""] && ['a'] + "" == "a";
    assert SplitStar("a") == ["a"];
    assert SplitStar("*a") == ["", "a"];
  }

  /** `a*a` accepts `a`, which is not a glob match: prefix and suffix share the one character. */
  lemma OverlapAccepted()
    ensures Accepts(SplitStar("a*a"), "a") && !Glob("a*a", "a", 0)
  {
    SplitExample();
    AcceptsVersusGlob("a*a", "a");
    hide SplitStar, Glob;
    assert Middle(["a", "a"]) == [];
    GreedyDone("a", 1);
  }

  // ----- picking the asset

  predicate IsSpace(c: char) {
    var n := c as int;
    || 0x09 <= n <= 0x0D || n in {0x20, 0x85, 0xA0, 0x1680, 0x2028, 0x2029, 0x202F, 0x205F, 0x3000}
    || 0x2000 <= n <= 0x200A
  }

  predicate IsControl(c: char) {
    var n := c as int;
    n <= 0x1F || 0x7F <= n <= 0x9F
  }

  /** `validate_asset_pattern`. */
  predicate ValidPattern(pattern: string) {
    && (exists i :: 0 <= i < |pattern| && !IsSpace(pattern[i]))
    && (forall i :: 0 <= i < |pattern| ==> !IsControl(pattern[i]) && pattern[i] !in {'/', '\\'})
  }

  ghost predicate Eligible(pattern: string, name: string) {
    EndsWith(Lower(name), ".ipa") && Accepts(SplitStar(Lower(pattern)), Lower(name))
  }

  /** Eligibility does not depend on case, and the last four characters are `.ipa` in any case. */
  lemma CaseIsIgnored(pattern: string, name: string, pattern': string, name': string)
    requires SameButForCase(pattern, pattern') && SameButForCase(name, name')
    ensures Eligible(pattern, name) <==> Eligible(pattern', name')
    ensures Eligible(pattern, name)
        <==> |name| >= 4 && SameButForCase(name[|name| - 4..], ".ipa") && Accepts(SplitStar(Lower(pattern)), Lower(name))
  {
    hide Accepts, SplitStar, SameButForCase;
    LowerIgnoresCase(pattern, pattern');
    LowerIgnoresCase(name, name');
    IpaSuffix(name);
  }

  lemma IpaSuffix(name: string)
    ensures EndsWith(Lower(name), ".ipa") <==> |name| >= 4 && SameButForCase(name[|name| - 4..], ".ipa")
  {
    if |name| >= 4 {
      var end := name[|name| - 4..];
      LowerIgnoresCase(end, ".ipa");
      LowerOfIpa();
      assert Lower(name)[|name| - 4..] == Lower(end);
    }
  }

  lemma LowerOfIpa()
    ensures Lower(".ipa") == ".ipa"
  {
  }

  datatype AssetError = InvalidPattern | NoMatchingAsset | AmbiguousAsset

  /** `match_ipa_asset`: the one asset the pattern names, by position. */
  method MatchIpaAsset(names: seq<string>, pattern: string) returns (r: Result<nat, AssetError>)
    ensures r == Err(InvalidPattern) <==> !ValidPattern(pattern)
    ensures r.Ok? ==> r.value < |names| && Eligible(pattern, names[r.value])
                      && forall i :: 0 <= i < |names| && i != r.value ==> !Eligible(pattern, names[i])
    ensures r == Err(NoMatchingAsset) ==> forall i :: 0 <= i < |names| ==> !Eligible(pattern, names[i])
    ensures r == Err(AmbiguousAsset) ==>
              exists i, j :: 0 <= i < j < |names| && Eligible(pattern, names[i]) && Eligible(pattern, names[j])
  {
    hide ValidPattern, Accepts, SplitStar, Lower, EndsWith;
    if !ValidPattern(pattern) {
      return Err(InvalidPattern);
    }
    var matches: seq<nat> := [];
    var i := 0;
    while i < |names|
      invariant 0 <= i <= |names|
      invariant forall k :: 0 <= k < |matches| ==> matches[k] < i && Eligible(pattern, names[matches[k]])
      invariant forall k, m :: 0 <= k < m < |matches| ==> matches[k] < matches[m]
      invariant forall k :: 0 <= k < i && Eligible(pattern, names[k]) ==> k in matches
    {
      var matched := WildcardMatch(pattern, names[i]);
      if EndsWith(Lower(names[i]), ".ipa") && matched {
        assert matches + [i] == matches + [i] && (matches + [i])[|matches|] == i;
        matches := matches + [i];
      }
      i := i + 1;
    }
    if |matches| == 0 {
      return Err(NoMatchingAsset);
    }
    if |matches| == 1 {
      return Ok(matches[0]);
    }
    assert Eligible(pattern, names[matches[0]]) && Eligible(pattern, names[matches[1]]);
    return Err(AmbiguousAsset);
  }
}
