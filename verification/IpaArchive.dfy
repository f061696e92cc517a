/**
 The inspection of an uploaded archive: one loop over the entries in archive order, which decides
 a property of the set of entries.
 */
module IpaArchive {
  import opened Wrappers

  const MAX_COMPRESSED_BYTES: nat := 2 * 1024 * 1024 * 1024
  const MAX_EXPANDED_BYTES: nat := 4 * 1024 * 1024 * 1024
  const MAX_ENTRIES: nat := 20_000
  const MAX_COMPRESSION_RATIO: nat := 200
  const RATIO_CHECK_MIN_BYTES: nat := 1024 * 1024
  const MAX_INFO_PLIST_BYTES: nat := 16 * 1024 * 1024

  type Size = n: int | 0 <= n < 0x1_0000_0000_0000_0000

  type Platform = nat

  /** What reading an entry as a property list gives. */
  datatype Info = Unreadable | NotADictionary | Dictionary(id: Option<string>, name: Option<string>, version: Option<string>, platform: Platform)

  datatype Entry = Entry(opens: bool, name: string, size: Size, compressed: Size, info: Info)

  datatype Metadata = Metadata(bundlePath: string, id: string, name: string, version: Option<string>, platform: Platform)

  datatype UploadError = TooLarge | InvalidArchive | UnsafePath | TooManyEntries | ExpansionLimit | InvalidPayload | MissingInfoPlist | InvalidBundleIdentifier

  // ----- entry names

  /** The part of a name before its first slash. */
  function FirstPart(name: string): (part: string)
    ensures part <= name && '/' !in part
    ensures |part| < |name| ==> name[|part|] == '/'
  {
    if name == "" || name[0] == '/' then "" else [name[0]] + FirstPart(name[1..])
  }

  predicate HasParent(name: string)
    decreases |name|
  {
    FirstPart(name) == ".." || (|FirstPart(name)| < |name| && HasParent(name[|FirstPart(name)| + 1..]))
  }

  /** Between two slashes, or a slash and an end, stands `..`. */
  ghost predicate ParentAt(name: string, k: nat) {
    && k + 2 <= |name| && name[k..k + 2] == ".."
    && (k == 0 || name[k - 1] == '/') && (k + 2 == |name| || name[k + 2] == '/')
  }

  lemma {:induction false} FirstPartLength(name: string)
    ensures forall k :: 0 <= k < |FirstPart(name)| ==> name[k] != '/'
  {
    if name != "" && name[0] != '/' {
      FirstPartLength(name[1..]);
    }
  }

  /** A name has a parent component exactly if `..` stands somewhere between slashes. */
  lemma {:induction false} HasParentIffDots(name: string)
    ensures HasParent(name) <==> exists k: nat :: ParentAt(name, k)
    decreases |name|
  {
    var n := |FirstPart(name)| + 1;
    if FirstPart(name) == ".." {
      FirstDots(name);
    } else {
      hide ParentAt, FirstPart;
      if n <= |name| {
        HasParentIffDots(name[n..]);
        if HasParent(name) {
          var k: nat :| ParentAt(name[n..], k);
          EarlierDots(name, n, k);
        }
      }
      if k: nat :| ParentAt(name, k) {
        LaterDots(name, k);
      }
    }
  }

  lemma FirstDots(name: string)
    requires FirstPart(name) == ".."
    ensures ParentAt(name, 0)
  {
    FirstPartLength(name);
  }

  lemma EarlierDots(name: string, n: nat, k: nat)
    requires 0 < n <= |name| && name[n - 1] == '/' && ParentAt(name[n..], k)
    ensures ParentAt(name, n + k)
  {
    assert name[n..][k..k + 2] == name[n + k..n + k + 2];
  }

  lemma LaterDots(name: string, k: nat)
    requires ParentAt(name, k) && FirstPart(name) != ".."
    ensures var n := |FirstPart(name)| + 1; n <= k && k + 2 <= |name| && ParentAt(name[n..], k - n)
  {
    var first := FirstPart(name);
    var n := |first| + 1;
    FirstPartLength(name);
    assert name[k..k + 2][0] == '.' && name[k..k + 2][1] == '.';
    if k > 0 {
      assert |first| <= k - 1;
      assert name[n..][k - n..k - n + 2] == name[k..k + 2];
    }
  }

  predicate SafeName(name: string) {
    !("/" <= name) && '\\' !in name && !HasParent(name)
  }

  predicate EndsWithApp(part: string) {
    |part| >= 4 && part[|part| - 4..] == ".app"
  }

  const PAYLOAD: string := "Payload/"
  const INFO_PLIST: string := "/Info.plist"

  function Below(directory: string, name: string): Option<string> {
    if directory <= name then Some(name[|directory|..]) else None
  }

  function BundleIn(directory: string, name: string): Option<string> {
    var rest := Below(directory, name);
    if rest.None? || !EndsWithApp(FirstPart(rest.value)) then None else Some(directory + FirstPart(rest.value))
  }

  /** `main_bundle_from_entry`: the first two parts of a name in `Payload` whose second part is an application. */
  function MainBundle(name: string): Option<string> {
    BundleIn(PAYLOAD, name)
  }

  predicate IsWhitespace(c: char) {
    || '\U{9}' <= c <= '\U{D}' || c == ' ' || c == '\U{85}' || c == '\U{A0}' || c == '\U{1680}'
    || '\U{2000}' <= c <= '\U{200A}' || c in {'\U{2028}', '\U{2029}', '\U{202F}', '\U{205F}', '\U{3000}'}
  }

  predicate Blank(text: string) {
    forall i :: 0 <= i < |text| ==> IsWhitespace(text[i])
  }

  lemma {:induction false} FirstPartStops(part: string, rest: string)
    requires '/' !in part && rest != "" && rest[0] == '/'
    ensures FirstPart(part + rest) == part
  {
    if part == "" {
      assert part + rest == rest;
    } else {
      assert (part + rest)[1..] == part[1..] + rest;
      FirstPartStops(part[1..], rest);
      assert part == [part[0]] + part[1..];
    }
  }

  lemma BelowJoined(directory: string, rest: string)
    ensures Below(directory, directory + rest) == Some(rest)
  {
  }

  lemma JoinedThrice(a: string, b: string, c: string)
    ensures a + b + c == a + (b + c)
  {
  }

  /** Whatever follows the bundle in a name, the name is in that bundle. */
  lemma InsideBundle(directory: string, part: string, rest: string)
    requires '/' !in part && EndsWithApp(part) && rest != "" && rest[0] == '/'
    ensures BundleIn(directory, directory + part + rest) == Some(directory + part)
  {
    FirstPartStops(part, rest);
    BelowJoined(directory, part + rest);
    JoinedThrice(directory, part, rest);
    hide FirstPart, EndsWithApp, Below;
  }

  lemma {:induction false} WholePart(part: string)
    requires '/' !in part
    ensures FirstPart(part) == part
  {
    if part != "" {
      WholePart(part[1..]);
      assert part == [part[0]] + part[1..];
    }
  }

  lemma BundleItself(directory: string, part: string)
    requires '/' !in part && EndsWithApp(part)
    ensures BundleIn(directory, directory + part) == Some(directory + part)
  {
    WholePart(part);
    BelowJoined(directory, part);
    hide FirstPart, EndsWithApp, Below;
  }

  lemma BundleNames(directory: string, name: string, part: string)
    requires BundleIn(directory, name) == Some(directory + part)
    ensures '/' !in part && EndsWithApp(part)
    ensures name == directory + part || directory + part + "/" <= name
  {
    var rest := Below(directory, name).value;
    SameTail(directory, FirstPart(rest), part);
    BelowRest(directory, name);
    Continues(part, rest);
    hide FirstPart, EndsWithApp, Below;
    JoinedThrice(directory, part, "/");
    PrefixJoined(directory, part + "/", rest);
  }

  lemma SameTail(a: string, b: string, c: string)
    requires a + b == a + c
    ensures b == c
  {
    assert (a + b)[|a|..] == b && (a + c)[|a|..] == c;
  }

  lemma BelowRest(directory: string, name: string)
    requires Below(directory, name).Some?
    ensures name == directory + Below(directory, name).value
  {
  }

  lemma Continues(part: string, rest: string)
    requires part == FirstPart(rest)
    ensures rest == part || part + "/" <= rest
  {
  }

  lemma PrefixJoined(a: string, b: string, c: string)
    ensures b <= c ==> a + b <= a + c
  {
  }

  /** What lies in `Payload` below a directory that ends in `.app`, or is such a directory. */
  lemma MainBundleIs(name: string, part: string)
    ensures MainBundle(name) == Some("Payload/" + part) <==>
              && '/' !in part && |part| >= 4 && part[|part| - 4..] == ".app"
              && (name == "Payload/" + part || "Payload/" + part + "/" <= name)
  {
    hide BundleIn;
    var bundle := PAYLOAD + part;
    if MainBundle(name) == Some(bundle) {
      BundleNames(PAYLOAD, name, part);
    }
    if '/' !in part && EndsWithApp(part) {
      if name == bundle {
        BundleItself(PAYLOAD, part);
      } else if bundle + "/" <= name {
        var rest := name[|bundle|..];
        assert name == bundle + rest && rest[0] == '/';
        InsideBundle(PAYLOAD, part, rest);
      }
    }
  }

  lemma BundleContains(directory: string, name: string, rest: string)
    requires BundleIn(directory, name).Some? && rest != "" && rest[0] == '/'
    ensures BundleIn(directory, BundleIn(directory, name).value + rest) == BundleIn(directory, name)
  {
    InsideBundle(directory, FirstPart(Below(directory, name).value), rest);
    hide FirstPart, EndsWithApp, Below;
  }

  /** The property list of a bundle lies in that bundle. */
  lemma PlistIsInItsBundle(name: string)
    requires MainBundle(name).Some?
    ensures MainBundle(PlistName(MainBundle(name).value)) == MainBundle(name)
  {
    hide BundleIn;
    BundleContains(PAYLOAD, name, INFO_PLIST);
  }

  // ----- what an archive must be, entry by entry

  predicate EntryFine(e: Entry) {
    && e.opens && SafeName(e.name)
    && !(e.size >= RATIO_CHECK_MIN_BYTES && e.compressed > 0 && e.size / e.compressed > MAX_COMPRESSION_RATIO)
  }

  function PlistName(bundle: string): string {
    bundle + INFO_PLIST
  }

  predicate PlistFine(e: Entry) {
    e.size <= MAX_INFO_PLIST_BYTES && e.info.Dictionary?
  }

  function Sum(entries: seq<Entry>): nat {
    if entries == [] then 0 else Sum(entries[..|entries| - 1]) + entries[|entries| - 1].size
  }

  /** The first bundle that an entry names. */
  function FirstBundle(entries: seq<Entry>): Option<string> {
    if entries == [] then None
    else
      var before := FirstBundle(entries[..|entries| - 1]);
      if before.Some? then before else MainBundle(entries[|entries| - 1].name)
  }

  function LastNamed(entries: seq<Entry>, name: string): Option<Entry> {
    if entries == [] then None
    else if entries[|entries| - 1].name == name then Some(entries[|entries| - 1])
    else LastNamed(entries[..|entries| - 1], name)
  }

  predicate BundlesAgree(entries: seq<Entry>) {
    forall i :: 0 <= i < |entries| && MainBundle(entries[i].name).Some? ==> MainBundle(entries[i].name) == FirstBundle(entries)
  }

  predicate PlistsFine(entries: seq<Entry>) {
    FirstBundle(entries).Some? ==>
      forall i :: 0 <= i < |entries| && entries[i].name == PlistName(FirstBundle(entries).value) ==> PlistFine(entries[i])
  }

  /** No entry stops the loop. */
  predicate Passes(entries: seq<Entry>) {
    && (forall i :: 0 <= i < |entries| ==> EntryFine(entries[i]))
    && Sum(entries) <= MAX_EXPANDED_BYTES && BundlesAgree(entries) && PlistsFine(entries)
  }

  function MainPlist(entries: seq<Entry>): Option<Entry> {
    if FirstBundle(entries).None? then None else LastNamed(entries, PlistName(FirstBundle(entries).value))
  }

  predicate Identified(info: Info) {
    info.Dictionary? && info.id.Some? && !Blank(info.id.value)
  }

  function MetadataOf(bundle: string, info: Info): Metadata
    requires Identified(info)
  {
    Metadata(bundle, info.id.value, if info.name.Some? && !Blank(info.name.value) then info.name.value else info.id.value, info.version, info.platform)
  }

  // ----- one entry more

  lemma SumGrows(entries: seq<Entry>, i: nat)
    requires i <= |entries|
    ensures Sum(entries[..i]) <= Sum(entries)
  {
    if i < |entries| {
      assert entries[..|entries| - 1][..i] == entries[..i];
      SumGrows(entries[..|entries| - 1], i);
    } else {
      assert entries[..i] == entries;
    }
  }

  lemma FirstBundleStays(entries: seq<Entry>, i: nat)
    requires i <= |entries| && FirstBundle(entries[..i]).Some?
    ensures FirstBundle(entries) == FirstBundle(entries[..i])
  {
    hide MainBundle;
    if i < |entries| {
      assert entries[..|entries| - 1][..i] == entries[..i];
      FirstBundleStays(entries[..|entries| - 1], i);
    } else {
      assert entries[..i] == entries;
    }
  }

  lemma FirstBundleFound(entries: seq<Entry>)
    ensures FirstBundle(entries).None? <==> forall i :: 0 <= i < |entries| ==> MainBundle(entries[i].name).None?
    ensures FirstBundle(entries).Some? ==> exists i :: 0 <= i < |entries| && MainBundle(entries[i].name) == FirstBundle(entries)
  {
    hide MainBundle;
    if entries != [] {
      var init := entries[..|entries| - 1];
      FirstBundleFound(init);
      if FirstBundle(init).Some? {
        var i: nat :| i < |init| && MainBundle(init[i].name) == FirstBundle(init);
        assert MainBundle(entries[i].name) == FirstBundle(entries);
      } else {
        assert forall i :: 0 <= i < |init| ==> entries[i] == init[i];
        assert MainBundle(entries[|entries| - 1].name) == FirstBundle(entries);
      }
    }
  }

  /** A prefix of an archive that passes also passes. */
  lemma PrefixPasses(entries: seq<Entry>, i: nat)
    requires i <= |entries| && Passes(entries)
    ensures Passes(entries[..i])
  {
    hide MainBundle, SafeName, FirstBundle, Sum, PlistName;
    var before := entries[..i];
    SumGrows(entries, i);
    FirstBundleFound(before);
    if FirstBundle(before).Some? {
      FirstBundleStays(entries, i);
    }
    forall k | 0 <= k < i ensures before[k] == entries[k] {
    }
  }

  /** When one more entry passes, said of that entry alone. */
  lemma PassesStep(before: seq<Entry>, e: Entry)
    requires Passes(before)
    ensures
      var bundle := if FirstBundle(before).Some? then FirstBundle(before) else MainBundle(e.name);
      && FirstBundle(before + [e]) == bundle
      && Sum(before + [e]) == Sum(before) + e.size
      && (Passes(before + [e]) <==>
            && EntryFine(e) && Sum(before) + e.size <= MAX_EXPANDED_BYTES
            && (MainBundle(e.name).Some? ==> MainBundle(e.name) == bundle)
            && (bundle.Some? && e.name == PlistName(bundle.value) ==> PlistFine(e)))
  {
    hide MainBundle, SafeName, PlistName;
    var all := before + [e];
    var n := |before|;
    assert all[..n] == before && all[n] == e;
    FirstBundleFound(before);
    forall i | 0 <= i < n ensures all[i] == before[i] {
    }
    if FirstBundle(before).None? && MainBundle(e.name).Some? {
      PlistIsInItsBundle(e.name);
      forall i | 0 <= i < n ensures all[i].name != PlistName(MainBundle(e.name).value) {
        assert MainBundle(before[i].name).None?;
      }
    }
  }

  /** The property list is only looked for once its bundle is known; none is missed. */
  lemma MainPlistStep(before: seq<Entry>, e: Entry)
    ensures
      var bundle := FirstBundle(before + [e]);
      MainPlist(before + [e]) == if bundle.Some? && e.name == PlistName(bundle.value) then Some(e) else MainPlist(before)
  {
    hide MainBundle, PlistName;
    var all := before + [e];
    assert all[..|before|] == before;
    FirstBundleFound(before);
    if FirstBundle(before).None? && FirstBundle(all).Some? {
      PlistIsInItsBundle(e.name);
      NotNamed(before, PlistName(FirstBundle(all).value));
    }
  }

  lemma NotNamed(entries: seq<Entry>, name: string)
    requires forall i :: 0 <= i < |entries| ==> entries[i].name != name
    ensures LastNamed(entries, name) == None
  {
  }

  // ----- the loop

  function SaturatingAdd(a: Size, b: Size): Size {
    if a + b < 0x1_0000_0000_0000_0000 then a + b else 0xFFFF_FFFF_FFFF_FFFF
  }

  lemma PlistNeedsBundle(entries: seq<Entry>)
    ensures MainPlist(entries).Some? ==> FirstBundle(entries).Some?
  {
  }

  lemma NothingYet()
    ensures Passes([]) && Sum([]) == 0 && FirstBundle([]) == None && MainPlist([]) == None
  {
  }

  predicate IsPlist(before: seq<Entry>, e: Entry) {
    FirstBundle(before + [e]).Some? && e.name == PlistName(FirstBundle(before + [e]).value)
  }

  /** An entry with one of these faults does not pass. */
  lemma Stopped(entries: seq<Entry>, i: nat, error: UploadError)
    requires i < |entries| && Passes(entries[..i]) && Wrong(entries[..i], entries[i], error)
    ensures StopsFor(entries, error)
  {
    hide MainBundle, SafeName, PlistName, FirstBundle, Sum, Passes;
    assert entries[..i + 1] == entries[..i] + [entries[i]];
    PassesStep(entries[..i], entries[i]);
  }

  /** What is wrong with an entry after entries that pass, for each error the loop can end with. */
  predicate Wrong(before: seq<Entry>, e: Entry, error: UploadError) {
    match error
    case InvalidArchive => !e.opens || (IsPlist(before, e) && e.info.Unreadable?)
    case UnsafePath => !SafeName(e.name)
    case ExpansionLimit =>
      || Sum(before) + e.size > MAX_EXPANDED_BYTES
      || (e.size >= RATIO_CHECK_MIN_BYTES && e.compressed > 0 && e.size / e.compressed > MAX_COMPRESSION_RATIO)
      || (IsPlist(before, e) && e.size > MAX_INFO_PLIST_BYTES)
    case InvalidPayload => FirstBundle(before).Some? && MainBundle(e.name).Some? && MainBundle(e.name) != FirstBundle(before)
    case InvalidBundleIdentifier => IsPlist(before, e) && e.info.NotADictionary?
    case _ => false
  }

  /** The loop stops at the first entry that does not pass, for that reason. */
  ghost predicate StopsFor(entries: seq<Entry>, error: UploadError) {
    exists i :: 0 <= i < |entries| && Passes(entries[..i]) && !Passes(entries[..i + 1]) && Wrong(entries[..i], entries[i], error)
  }

  method InspectIpa(fileSize: nat, entries: seq<Entry>) returns (r: Result<Metadata, UploadError>)
    ensures r.Ok? <==>
              && fileSize <= MAX_COMPRESSED_BYTES && |entries| <= MAX_ENTRIES
              && Passes(entries) && MainPlist(entries).Some? && Identified(MainPlist(entries).value.info)
    ensures r.Ok? ==> r.value == MetadataOf(FirstBundle(entries).value, MainPlist(entries).value.info)
    ensures r == Err(TooLarge) <==> fileSize > MAX_COMPRESSED_BYTES
    ensures r == Err(TooManyEntries) <==> fileSize <= MAX_COMPRESSED_BYTES && |entries| > MAX_ENTRIES
    ensures r == Err(MissingInfoPlist) <==>
              && fileSize <= MAX_COMPRESSED_BYTES && |entries| <= MAX_ENTRIES
              && Passes(entries) && FirstBundle(entries).Some? && MainPlist(entries).None?
    ensures r.Err? && r.error !in {TooLarge, TooManyEntries, MissingInfoPlist} ==>
              || StopsFor(entries, r.error)
              || (Passes(entries) && r.error == InvalidPayload && FirstBundle(entries).None?)
              || (Passes(entries) && r.error == InvalidBundleIdentifier && MainPlist(entries).Some? && !Identified(MainPlist(entries).value.info))
  {
    hide StopsFor, Passes, FirstBundle, MainPlist, MainBundle, SafeName, Sum, Blank, PlistName;
    NothingYet();
    if fileSize > MAX_COMPRESSED_BYTES {
      return Err(TooLarge);
    }
    if |entries| > MAX_ENTRIES {
      return Err(TooManyEntries);
    }
    var expanded: Size := 0;
    var bundle: Option<string> := None;
    var present := false;
    var info := Unreadable;
    for index := 0 to |entries|
      invariant Passes(entries[..index])
      invariant expanded == Sum(entries[..index]) && bundle == FirstBundle(entries[..index])
      invariant present == MainPlist(entries[..index]).Some? && (present ==> info == MainPlist(entries[..index]).value.info && info.Dictionary?)
    {
      var entry := entries[index];
      var before := entries[..index];
      assert entries[..index + 1] == before + [entry];
      PassesStep(before, entry);
      MainPlistStep(before, entry);
      if Passes(entries) {
        PrefixPasses(entries, index + 1);
      }
      if !entry.opens {
        Stopped(entries, index, InvalidArchive);
        return Err(InvalidArchive);
      }
      if !SafeName(entry.name) {
        Stopped(entries, index, UnsafePath);
        return Err(UnsafePath);
      }
      expanded := SaturatingAdd(expanded, entry.size);
      if expanded > MAX_EXPANDED_BYTES {
        Stopped(entries, index, ExpansionLimit);
        return Err(ExpansionLimit);
      }
      if entry.size >= RATIO_CHECK_MIN_BYTES && entry.compressed > 0 && entry.size / entry.compressed > MAX_COMPRESSION_RATIO {
        Stopped(entries, index, ExpansionLimit);
        return Err(ExpansionLimit);
      }
      var main := MainBundle(entry.name);
      if main.Some? {
        if bundle.Some? && bundle != main {
          Stopped(entries, index, InvalidPayload);
          return Err(InvalidPayload);
        }
        bundle := main;
      }
      if bundle.Some? && entry.name == PlistName(bundle.value) {
        present := true;
        if entry.size > MAX_INFO_PLIST_BYTES {
          Stopped(entries, index, ExpansionLimit);
          return Err(ExpansionLimit);
        }
        if entry.info.Unreadable? {
          Stopped(entries, index, InvalidArchive);
          return Err(InvalidArchive);
        }
        if entry.info.NotADictionary? {
          Stopped(entries, index, InvalidBundleIdentifier);
          return Err(InvalidBundleIdentifier);
        }
        info := entry.info;
      }
    }
    assert entries[..|entries|] == entries;
    PlistNeedsBundle(entries);
    if bundle.None? {
      return Err(InvalidPayload);
    }
    if !present {
      return Err(MissingInfoPlist);
    }
    if info.id.None? || Blank(info.id.value) {
      return Err(InvalidBundleIdentifier);
    }
    var name := if info.name.Some? && !Blank(info.name.value) then info.name.value else info.id.value;
    return Ok(Metadata(bundle.value, info.id.value, name, info.version, info.platform));
  }

  // ----- the same, said of the set of entries

  ghost function TotalSize(entries: set<Entry>): nat
    decreases entries
  {
    if entries == {} then 0
    else
      var e :| e in entries;
      e.size + TotalSize(entries - {e})
  }

  lemma TotalSizeOf(entries: set<Entry>, e: Entry)
    requires e in entries
    ensures TotalSize(entries) == e.size + TotalSize(entries - {e})
    decreases entries
  {
    var first, rest :| first in entries && rest == TotalSize(entries - {first}) && TotalSize(entries) == first.size + rest;
    if first != e {
      TotalSizeOf(entries - {first}, e);
      TotalSizeOf(entries - {e}, first);
      assert entries - {first} - {e} == entries - {e} - {first};
    }
  }

  function Entries(entries: seq<Entry>): set<Entry> {
    set e | e in entries
  }

  predicate DistinctNames(entries: seq<Entry>) {
    forall i, k :: 0 <= i < k < |entries| ==> entries[i].name != entries[k].name
  }

  lemma TotalSizeNone()
    ensures TotalSize({}) == 0
  {
  }

  lemma EntriesSplit(entries: seq<Entry>)
    requires DistinctNames(entries) && entries != []
    ensures
      var n := |entries| - 1;
      && DistinctNames(entries[..n]) && entries[n] !in Entries(entries[..n])
      && Entries(entries) == Entries(entries[..n]) + {entries[n]}
  {
    var n := |entries| - 1;
    assert entries == entries[..n] + [entries[n]];
  }

  lemma {:induction false} SumIsTotalSize(entries: seq<Entry>)
    requires DistinctNames(entries)
    ensures Sum(entries) == TotalSize(Entries(entries)) && |entries| == |Entries(entries)|
    decreases |entries|
  {
    hide TotalSize, DistinctNames;
    if entries == [] {
      assert Entries(entries) == {};
      TotalSizeNone();
    } else {
      hide Entries;
      var n := |entries| - 1;
      EntriesSplit(entries);
      SumIsTotalSize(entries[..n]);
      TotalSizeOf(Entries(entries), entries[n]);
      assert Entries(entries) - {entries[n]} == Entries(entries[..n]);
    }
  }

  /** The declarative test: nothing here depends on an order. */
  ghost predicate Acceptable(entries: set<Entry>, plist: Entry) {
    && |entries| <= MAX_ENTRIES && TotalSize(entries) <= MAX_EXPANDED_BYTES
    && (forall e :: e in entries ==> EntryFine(e))
    && plist in entries && MainBundle(plist.name).Some? && plist.name == PlistName(MainBundle(plist.name).value)
    && (forall e :: e in entries && MainBundle(e.name).Some? ==> MainBundle(e.name) == MainBundle(plist.name))
    && PlistFine(plist) && Identified(plist.info)
  }

  lemma LastNamedIs(entries: seq<Entry>, name: string)
    ensures LastNamed(entries, name).None? <==> forall i :: 0 <= i < |entries| ==> entries[i].name != name
    ensures LastNamed(entries, name).Some? ==> LastNamed(entries, name).value in entries && LastNamed(entries, name).value.name == name
  {
    if entries != [] {
      var n := |entries| - 1;
      LastNamedIs(entries[..n], name);
      assert forall i :: 0 <= i < n ==> entries[i] == entries[..n][i];
    }
  }

  predicate Accepted(entries: seq<Entry>) {
    && |entries| <= MAX_ENTRIES && Passes(entries)
    && MainPlist(entries).Some? && Identified(MainPlist(entries).value.info)
  }

  /** For distinct names, what the loop accepts is the declarative test, with the property list it read. */
  lemma AcceptedIsAcceptable(entries: seq<Entry>, plist: Entry)
    requires DistinctNames(entries)
    ensures Acceptable(Entries(entries), plist) <==> Accepted(entries) && MainPlist(entries) == Some(plist)
    ensures Acceptable(Entries(entries), plist) ==> FirstBundle(entries) == MainBundle(plist.name)
  {
    hide MainBundle, SafeName, PlistName, Sum, TotalSize, FirstBundle, LastNamed, Blank;
    SumIsTotalSize(entries);
    FirstBundleFound(entries);
    if FirstBundle(entries).Some? {
      LastNamedIs(entries, PlistName(FirstBundle(entries).value));
      var i: nat :| i < |entries| && MainBundle(entries[i].name) == FirstBundle(entries);
      PlistIsInItsBundle(entries[i].name);
    }
    if Acceptable(Entries(entries), plist) {
      AcceptableIsAccepted(entries, plist);
    }
    if Accepted(entries) && MainPlist(entries) == Some(plist) {
      forall e | e in Entries(entries) ensures EntryFine(e) && (MainBundle(e.name).Some? ==> MainBundle(e.name) == FirstBundle(entries)) {
        var k: nat :| k < |entries| && entries[k] == e;
      }
      var p: nat :| p < |entries| && entries[p] == plist;
    }
  }

  lemma OneOfName(entries: seq<Entry>, e: Entry, i: nat)
    requires DistinctNames(entries) && e in entries && i < |entries| && entries[i].name == e.name
    ensures entries[i] == e
  {
    var k: nat :| k < |entries| && entries[k] == e;
  }

  lemma AcceptableIsAccepted(entries: seq<Entry>, plist: Entry)
    requires DistinctNames(entries) && Acceptable(Entries(entries), plist)
    requires Sum(entries) == TotalSize(Entries(entries)) && |entries| == |Entries(entries)|
    ensures Accepted(entries) && MainPlist(entries) == Some(plist) && FirstBundle(entries) == MainBundle(plist.name)
  {
    hide MainBundle, PlistName, Sum, TotalSize, FirstBundle, LastNamed, Identified, EntryFine, PlistFine, DistinctNames;
    FirstBundleFound(entries);
    LastNamedIs(entries, plist.name);
    assert plist in entries;
    forall i | 0 <= i < |entries|
      ensures EntryFine(entries[i]) && (MainBundle(entries[i].name).Some? ==> MainBundle(entries[i].name) == MainBundle(plist.name))
      ensures entries[i].name == plist.name ==> entries[i] == plist
    {
      assert entries[i] in Entries(entries);
      if entries[i].name == plist.name {
        OneOfName(entries, plist, i);
      }
    }
    assert FirstBundle(entries) == MainBundle(plist.name);
  }

  /** Success and metadata are the same for every order of the entries. */
  lemma OrderDoesNotMatter(one: seq<Entry>, two: seq<Entry>)
    requires DistinctNames(one) && DistinctNames(two) && Entries(one) == Entries(two)
    ensures Accepted(one) <==> Accepted(two)
    ensures Accepted(one) ==>
              && FirstBundle(one) == FirstBundle(two) && FirstBundle(one).Some?
              && MetadataOf(FirstBundle(one).value, MainPlist(one).value.info) == MetadataOf(FirstBundle(two).value, MainPlist(two).value.info)
  {
    hide MainBundle, SafeName, PlistName, Sum, TotalSize, FirstBundle, LastNamed, Blank, Acceptable;
    if Accepted(one) {
      AcceptedIsAcceptable(one, MainPlist(one).value);
      AcceptedIsAcceptable(two, MainPlist(one).value);
    }
    if Accepted(two) {
      AcceptedIsAcceptable(two, MainPlist(two).value);
      AcceptedIsAcceptable(one, MainPlist(two).value);
    }
  }
}
