/** Enclave metadata kept in the string annotations of a namespace
    (`pkg/authz/enclave_annotations.go`). */
module EnclaveAnnotations {
  import opened Wrappers
  import opened Text
  import opened Annotations
  import M = Mode

  datatype EnclaveInfo = EnclaveInfo(
    enclave: string, owner: string, ownerSub: string, platform: string,
    channelId: string, channelName: string, status: string, defaultMode: string,
    createdAt: string, updatedAt: string, members: seq<string>)

  // ----- member lists -----

  /** An e-mail in the form `ParseMembers` produces. */
  predicate Normalized(m: string) {
    m != "" && ',' !in m && Snug(m, SPACE) && ToLower(m) == m
  }

  predicate AllNormalized(ms: seq<string>) {
    forall m <- ms :: Normalized(m)
  }

  function KeepMembers(parts: seq<string>): seq<string> {
    if parts == [] then []
    else
      var m := ToLower(TrimSpace(parts[0]));
      (if m != "" then [m] else []) + KeepMembers(parts[1..])
  }

  /** The members a comma-separated text stands for. */
  function Members(csv: string): seq<string> {
    KeepMembers(Split(csv, ','))
  }

  lemma {:induction false} KeepMembersSnoc(parts: seq<string>, p: string)
    ensures KeepMembers(parts + [p]) ==
            KeepMembers(parts) + (var m := ToLower(TrimSpace(p)); if m != "" then [m] else [])
  {
    if parts != [] {
      assert (parts + [p])[1..] == parts[1..] + [p];
      KeepMembersSnoc(parts[1..], p);
    }
  }

  method ParseMembers(csv: string) returns (result: seq<string>)
    ensures result == Members(csv)
  {
    result := [];
    if csv == "" {
      return;
    }
    var parts := Split(csv, ',');
    for i := 0 to |parts|
      invariant result == KeepMembers(parts[..i])
    {
      var trimmed := ToLower(TrimSpace(parts[i]));
      KeepMembersSnoc(parts[..i], parts[i]);
      assert parts[..i + 1] == parts[..i] + [parts[i]];
      if trimmed != "" {
        result := result + [trimmed];
      }
    }
    assert parts[..|parts|] == parts;
  }

  function FormatMembers(ms: seq<string>): string {
    Join(ms, ",")
  }

  lemma PartNormalized(p: string)
    requires ',' !in p
    ensures var m := ToLower(TrimSpace(p)); m == "" || Normalized(m)
  {
    var a, b := TrimCuts(p, SPACE);
    var t := TrimSpace(p);
    LowerIdempotent(t);
    assert forall i :: 0 <= i < |t| ==> t[i] in p;
  }

  lemma {:induction false} KeepNormalized(parts: seq<string>)
    requires forall p <- parts :: ',' !in p
    ensures AllNormalized(KeepMembers(parts))
  {
    if parts != [] {
      PartNormalized(parts[0]);
      KeepNormalized(parts[1..]);
    }
  }

  /** An e-mail that survives the comma-separated form up to its letter case. */
  predicate CsvSafe(m: string) {
    m != "" && ',' !in m && Snug(m, SPACE)
  }

  function LowerAll(ms: seq<string>): seq<string> {
    if ms == [] then [] else [ToLower(ms[0])] + LowerAll(ms[1..])
  }

  lemma {:induction false} KeepSafe(ms: seq<string>)
    requires forall m <- ms :: CsvSafe(m)
    ensures KeepMembers(ms) == LowerAll(ms)
    ensures AllNormalized(ms) ==> LowerAll(ms) == ms
  {
    if ms != [] {
      assert CsvSafe(ms[0]);
      assert Normalized(ms[0]) ==> ToLower(ms[0]) == ms[0];
      TrimSnug(ms[0], SPACE);
      KeepSafe(ms[1..]);
      assert ms == [ms[0]] + ms[1..];
    }
  }

  /** Whatever the text, the parsed members are normalized. */
  lemma MembersNormalized(csv: string)
    ensures AllNormalized(Members(csv))
  {
    SplitPartsFree(csv, ',');
    KeepNormalized(Split(csv, ','));
  }

  /** Formatting then parsing only changes letter case. */
  lemma MembersLowered(ms: seq<string>)
    requires forall m <- ms :: CsvSafe(m)
    ensures Members(FormatMembers(ms)) == LowerAll(ms)
  {
    if ms != [] {
      SplitJoin(ms, ',');
    }
    KeepSafe(ms);
  }

  /** Formatting then parsing reads each entry back on its own: as no member if it is blank, as
      several if it holds commas. */
  function ReadBack(ms: seq<string>): seq<string> {
    if ms == [] then [] else Members(ms[0]) + ReadBack(ms[1..])
  }

  lemma {:induction false} KeepConcat(a: seq<string>, b: seq<string>)
    ensures KeepMembers(a + b) == KeepMembers(a) + KeepMembers(b)
  {
    if a == [] {
      assert a + b == b;
    } else {
      assert (a + b)[0] == a[0] && (a + b)[1..] == a[1..] + b;
      KeepConcat(a[1..], b);
    }
  }

  lemma {:induction false} MembersPerEntry(ms: seq<string>)
    ensures Members(FormatMembers(ms)) == ReadBack(ms)
  {
    hide Split, KeepMembers;
    if ms == [] {
      BlankEntry();
    } else {
      var rest := FormatMembers(ms[1..]);
      MembersPerEntry(ms[1..]);
      if |ms| == 1 {
        assert ReadBack(ms[1..]) == [];
      } else {
        assert FormatMembers(ms) == ms[0] + [','] + rest;
        SplitAppend(ms[0], rest, ',');
        KeepConcat(Split(ms[0], ','), Split(rest, ','));
      }
    }
  }

  lemma BlankEntry()
    ensures Members("") == []
  {
    assert KeepMembers([""]) == [] + KeepMembers([]);
  }

  predicate CommaFree(ms: seq<string>) {
    forall m <- ms :: ',' !in m
  }

  predicate NoneBlank(ms: seq<string>) {
    forall m <- ms :: TrimSpace(m) != ""
  }

  lemma EntryAlone(m: string)
    requires ',' !in m
    ensures Members(m) == if TrimSpace(m) == "" then [] else [ToLower(TrimSpace(m))]
  {
    hide ToLower, TrimSpace;
    SplitOne(m, ',');
    LowerEmpty(TrimSpace(m));
    assert KeepMembers([m]) == (if ToLower(TrimSpace(m)) == "" then [] else [ToLower(TrimSpace(m))]) + KeepMembers([]);
  }

  /** Entries without commas never read back as more members; if none is blank, as exactly as many. */
  lemma {:induction false} ReadBackCount(ms: seq<string>)
    requires CommaFree(ms)
    ensures |ReadBack(ms)| <= |ms|
    ensures NoneBlank(ms) ==> |ReadBack(ms)| == |ms|
  {
    hide TrimSpace, Members;
    if ms != [] {
      EntryAlone(ms[0]);
      ReadBackCount(ms[1..]);
      assert ms == [ms[0]] + ms[1..];
    }
  }

  lemma {:induction false} ReadBackMembers(ms: seq<string>, m: string)
    ensures m in ReadBack(ms) <==> exists x :: x in ms && m in Members(x)
  {
    hide Members;
    if ms != [] {
      ReadBackMembers(ms[1..], m);
      assert ms == [ms[0]] + ms[1..];
    }
  }

  /** Formatting then parsing gives a member list back exactly when it is normalized. */
  lemma MembersRoundTrip(ms: seq<string>)
    ensures Members(FormatMembers(ms)) == ms <==> AllNormalized(ms)
  {
    MembersNormalized(FormatMembers(ms));
    if AllNormalized(ms) {
      MembersLowered(ms);
      KeepSafe(ms);
    }
  }

  /** The parsed list is a normal form of the text it came from. */
  lemma MembersNormalForm(csv: string)
    ensures Members(FormatMembers(Members(csv))) == Members(csv)
  {
    MembersNormalized(csv);
    MembersRoundTrip(Members(csv));
  }

  // ----- annotations -----

  function ReadEnclaveInfo(ann: Annotations): EnclaveInfo {
    EnclaveInfo(Get(ann, Enclave), Get(ann, EnclaveOwner), Get(ann, EnclaveOwnerSub), Get(ann, EnclavePlatform),
                Get(ann, EnclaveChannelId), Get(ann, EnclaveChannelName), Get(ann, EnclaveStatus),
                Get(ann, EnclaveDefaultMode), Get(ann, EnclaveCreatedAt), Get(ann, EnclaveUpdatedAt),
                Members(Get(ann, EnclaveMembers)))
  }

  function WriteEnclaveAnnotations(info: EnclaveInfo): Annotations {
    map[
      Enclave := info.enclave,
      EnclaveOwner := info.owner,
      EnclaveOwnerSub := info.ownerSub,
      EnclaveMembers := FormatMembers(info.members),
      EnclavePlatform := info.platform,
      EnclaveChannelId := info.channelId,
      EnclaveChannelName := info.channelName,
      EnclaveStatus := info.status,
      EnclaveDefaultMode := info.defaultMode,
      EnclaveCreatedAt := info.createdAt,
      EnclaveUpdatedAt := info.updatedAt
    ]
  }

  predicate IsEnclave(ann: Annotations) {
    Get(ann, Enclave) != ""
  }

  /** The keys the enclave metadata occupies. */
  predicate InfoKey(k: Key) {
    k in {Enclave, EnclaveOwner, EnclaveOwnerSub, EnclaveMembers, EnclavePlatform, EnclaveChannelId,
          EnclaveChannelName, EnclaveStatus, EnclaveDefaultMode, EnclaveCreatedAt, EnclaveUpdatedAt}
  }

  lemma OtherKeysUntouched(ann: Annotations, info: EnclaveInfo, k: Key)
    requires !InfoKey(k)
    ensures Get(ann + WriteEnclaveAnnotations(info), k) == Get(ann, k)
  {
  }

  lemma InfoKeysWritten(ann: Annotations, info: EnclaveInfo, u: Annotations)
    requires u == ann + WriteEnclaveAnnotations(info)
    ensures Get(u, Enclave) == info.enclave && Get(u, EnclaveOwner) == info.owner
    ensures Get(u, EnclaveOwnerSub) == info.ownerSub && Get(u, EnclaveMembers) == FormatMembers(info.members)
    ensures Get(u, EnclavePlatform) == info.platform && Get(u, EnclaveChannelId) == info.channelId
    ensures Get(u, EnclaveChannelName) == info.channelName && Get(u, EnclaveStatus) == info.status
    ensures Get(u, EnclaveDefaultMode) == info.defaultMode
    ensures Get(u, EnclaveCreatedAt) == info.createdAt && Get(u, EnclaveUpdatedAt) == info.updatedAt
  {
  }

  /** Merging written metadata over any annotations reads back as the info that was
      written, with its members re-read from their text; other keys are untouched. */
  lemma ReadAfterWrite(ann: Annotations, info: EnclaveInfo)
    ensures ReadEnclaveInfo(ann + WriteEnclaveAnnotations(info)) ==
            info.(members := Members(FormatMembers(info.members)))
    ensures forall k :: !InfoKey(k) ==> Get(ann + WriteEnclaveAnnotations(info), k) == Get(ann, k)
  {
    InfoKeysWritten(ann, info, ann + WriteEnclaveAnnotations(info));
    forall k | !InfoKey(k) ensures Get(ann + WriteEnclaveAnnotations(info), k) == Get(ann, k) {
      OtherKeysUntouched(ann, info, k);
    }
  }

  /** Reading inverts writing on exactly the infos whose members are normalized. */
  lemma WriteRoundTrip(ann: Annotations, info: EnclaveInfo)
    ensures ReadEnclaveInfo(ann + WriteEnclaveAnnotations(info)) == info <==> AllNormalized(info.members)
  {
    ReadAfterWrite(ann, info);
    MembersRoundTrip(info.members);
  }

  // ----- validation -----

  predicate Alnum(c: char) {
    'a' <= c <= 'z' || '0' <= c <= '9'
  }

  /** The language of `^[a-z0-9]([a-z0-9-]{0,61}[a-z0-9])?$` (section 2.1 of RFC 1123). */
  predicate DnsLabel(name: string) {
    && 1 <= |name| <= 63
    && Alnum(name[0]) && Alnum(name[|name| - 1])
    && forall c <- name :: Alnum(c) || c == '-'
  }

  predicate ValidEnclaveName(name: string) {
    DnsLabel(name) && '.' !in name
  }

  predicate ValidMembers(ms: seq<string>, max: nat) {
    |ms| <= max
  }

  predicate ValidEnclaveInfo(info: EnclaveInfo, max: nat) {
    && ValidEnclaveName(info.enclave)
    && '@' in info.owner
    && (forall m <- info.members :: '@' in m)
    && info.platform in {"slack", ""}
    && info.status in {"active", "provisioning", "frozen", ""}
    && (info.defaultMode != "" ==> M.IsRwx(info.defaultMode))
    && ValidMembers(info.members, max)
  }

  datatype InfoError =
    | BadName | EmptyOwner | BadOwner | EmptyMember(i: nat) | BadMember(i: nat)
    | BadPlatform | BadStatus | BadDefaultMode | TooMany

  /** The first member that is empty or holds no '@', or the number of members. */
  function FirstBadMember(ms: seq<string>, i: nat): (k: nat)
    requires i <= |ms|
    ensures i <= k <= |ms|
    ensures forall j :: i <= j < k ==> '@' in ms[j]
    ensures k < |ms| ==> '@' !in ms[k]
    decreases |ms| - i
  {
    if i == |ms| || '@' !in ms[i] then i else FirstBadMember(ms, i + 1)
  }

  /** The failure an invalid info is reported with: the first one in this order. */
  function FirstInfoError(info: EnclaveInfo, max: nat): InfoError
    requires !ValidEnclaveInfo(info, max)
  {
    var k := FirstBadMember(info.members, 0);
    if !ValidEnclaveName(info.enclave) then BadName
    else if info.owner == "" then EmptyOwner
    else if '@' !in info.owner then BadOwner
    else if k < |info.members| then (if info.members[k] == "" then EmptyMember(k) else BadMember(k))
    else if info.platform !in {"slack", ""} then BadPlatform
    else if info.status !in {"active", "provisioning", "frozen", ""} then BadStatus
    else if info.defaultMode != "" && !M.IsRwx(info.defaultMode) then BadDefaultMode
    else TooMany
  }

  /** What each failure says about the info, and that what is noticed before was in order. */
  lemma InfoErrors(info: EnclaveInfo, max: nat)
    requires !ValidEnclaveInfo(info, max)
    ensures var e := FirstInfoError(info, max);
            var ms := info.members;
            && (e == BadName <==> !ValidEnclaveName(info.enclave))
            && (e == EmptyOwner <==> ValidEnclaveName(info.enclave) && info.owner == "")
            && (e == BadOwner ==> info.owner != "" && '@' !in info.owner)
            && (e.EmptyMember? ==> e.i < |ms| && ms[e.i] == "" && forall j :: 0 <= j < e.i ==> '@' in ms[j])
            && (e.BadMember? ==>
                  e.i < |ms| && ms[e.i] != "" && '@' !in ms[e.i] && forall j :: 0 <= j < e.i ==> '@' in ms[j])
            && (e.BadPlatform? ==> info.platform != "" && info.platform != "slack")
            && (e.BadStatus? ==>
                  && info.status !in {"", "active", "provisioning", "frozen"} && info.platform in {"", "slack"})
            && (e.BadDefaultMode? ==>
                  info.defaultMode != "" && !M.IsRwx(info.defaultMode) && info.platform in {"", "slack"})
            && (e.TooMany? <==>
                  |ms| > max && ValidEnclaveInfo(info.(members := []), max) && forall m <- ms :: '@' in m)
            && (e.BadPlatform? || e.BadStatus? || e.BadDefaultMode? ==> '@' in info.owner && forall m <- ms :: '@' in m)
  {
    hide ValidEnclaveName, M.IsRwx;
    var k := FirstBadMember(info.members, 0);
    assert k < |info.members| ==> info.members[k] in info.members;
  }

  /** `ValidateEnclaveInfo`: the first failure in source order, or nothing on a valid info. */
  method ValidateEnclaveInfo(info: EnclaveInfo, max: nat) returns (err: Option<InfoError>)
    ensures err.None? <==> ValidEnclaveInfo(info, max)
    ensures err.Some? ==> err.value == FirstInfoError(info, max)
  {
    if !ValidEnclaveName(info.enclave) {
      return Some(BadName);
    }
    var owner := ToLower(info.owner);
    assert forall i :: 0 <= i < |owner| ==> (owner[i] == '@' <==> info.owner[i] == '@');
    if owner == "" {
      return Some(EmptyOwner);
    }
    if '@' !in owner {
      return Some(BadOwner);
    }
    for i := 0 to |info.members|
      invariant forall j :: 0 <= j < i ==> '@' in info.members[j]
      invariant FirstBadMember(info.members, 0) == FirstBadMember(info.members, i)
    {
      if info.members[i] == "" {
        assert info.members[i] in info.members && '@' !in info.members[i];
        return Some(EmptyMember(i));
      }
      if '@' !in info.members[i] {
        return Some(BadMember(i));
      }
    }
    if info.platform !in {"slack", ""} {
      return Some(BadPlatform);
    }
    if info.status !in {"active", "provisioning", "frozen", ""} {
      return Some(BadStatus);
    }
    if info.defaultMode != "" && !M.IsRwx(info.defaultMode) {
      return Some(BadDefaultMode);
    }
    if !ValidMembers(info.members, max) {
      return Some(TooMany);
    }
    return None;
  }
}
