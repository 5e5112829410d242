/** Storage volumes of a component: what is mounted, what is claimed, and what validation promises. */
module StorageVolumes {
  import opened Options
  import Strings

  const EMPTY_DIR := "emptyDir"
  const HOST_PATH := "hostPath"
  const CSI := "csi"

  /** `hostPath` is the path of the host path source, `csi` the driver of the CSI source. */
  datatype StorageVolume = StorageVolume(name: string, storageClassName: Option<string>, storageSize: string,
                                         hostPath: Option<string>, csi: Option<string>,
                                         mountPath: string, subPath: string, readOnly: bool)

  datatype Source = ClaimSource(claimName: string) | EmptyDirSource | HostPathSource(path: Option<string>) | CsiSource(driver: Option<string>)
  datatype Volume = Volume(name: string, source: Source)
  datatype VolumeMount = VolumeMount(name: string, mountPath: string, subPath: string, readOnly: bool)
  datatype Claim = Claim(name: string, storageClassName: Option<string>, storage: Option<string>)

  predicate EqualsIgnoreCase(a: string, b: string) {
    Strings.ToLower(a) == Strings.ToLower(b)
  }

  function SpecialStorageClassName(sv: StorageVolume): string {
    if sv.storageClassName.Some? then
      var c := sv.storageClassName.value;
      if EqualsIgnoreCase(c, EMPTY_DIR) then EMPTY_DIR
      else if EqualsIgnoreCase(c, HOST_PATH) then HOST_PATH
      else if EqualsIgnoreCase(c, CSI) then CSI
      else ""
    else if sv.hostPath.Some? then HOST_PATH
    else if sv.csi.Some? then CSI
    else ""
  }

  /** An ASCII word in any mix of cases, spelled out in both. */
  predicate Spells(c: string, lower: string, upper: string)
    requires |lower| == |upper|
  {
    |c| == |lower| && forall i :: 0 <= i < |c| ==> c[i] == lower[i] || c[i] == upper[i]
  }

  lemma SpellsIff(c: string, word: string, lower: string, upper: string)
    requires |word| == |lower| == |upper|
    requires forall i :: 0 <= i < |word| ==>
      'a' <= lower[i] <= 'z' && upper[i] as int == lower[i] as int - 32 && (word[i] == lower[i] || word[i] == upper[i])
    ensures EqualsIgnoreCase(c, word) <==> Spells(c, lower, upper)
  {
    var x, y := Strings.ToLower(c), Strings.ToLower(word);
    assert forall i :: 0 <= i < |word| ==> y[i] == lower[i];
    if EqualsIgnoreCase(c, word) {
      forall i | 0 <= i < |c| ensures c[i] == lower[i] || c[i] == upper[i] {
        assert x[i] == y[i] == Strings.LowerChar(c[i]);
      }
    }
    if Spells(c, lower, upper) {
      assert forall i :: 0 <= i < |c| ==> x[i] == lower[i];
    }
  }

  /** What a volume is rendered as, by its class or, without one, by its sources: the special classes in any
      case, and a claim of its own name for everything else. */
  lemma RenderedAs(sv: StorageVolume)
    ensures SourceOf(sv) ==
      match sv.storageClassName
      case Some(c) =>
        if Spells(c, "emptydir", "EMPTYDIR") then EmptyDirSource
        else if Spells(c, "hostpath", "HOSTPATH") then HostPathSource(sv.hostPath)
        else if Spells(c, "csi", "CSI") then CsiSource(sv.csi)
        else ClaimSource(sv.name)
      case None =>
        if sv.hostPath.Some? then HostPathSource(sv.hostPath)
        else if sv.csi.Some? then CsiSource(sv.csi)
        else ClaimSource(sv.name)
  {
    if sv.storageClassName.Some? {
      var c := sv.storageClassName.value;
      SpellsIff(c, EMPTY_DIR, "emptydir", "EMPTYDIR");
      SpellsIff(c, HOST_PATH, "hostpath", "HOSTPATH");
      SpellsIff(c, CSI, "csi", "CSI");
    }
    hide EqualsIgnoreCase, Spells;
  }

  predicate ZeroSized(sv: StorageVolume) {
    Strings.HasPrefix(sv.storageSize, "0")
  }

  function SourceOf(sv: StorageVolume): Source {
    var c := SpecialStorageClassName(sv);
    if c == EMPTY_DIR then EmptyDirSource
    else if c == HOST_PATH then HostPathSource(sv.hostPath)
    else if c == CSI then CsiSource(sv.csi)
    else ClaimSource(sv.name)
  }

  // ---- mounting and claiming ----

  /** The volumes that are not switched off by a size that starts with zero. */
  function Sized(svs: seq<StorageVolume>): seq<StorageVolume> {
    if svs == [] then []
    else
      var front := Sized(svs[..|svs| - 1]);
      if ZeroSized(svs[|svs| - 1]) then front else front + [svs[|svs| - 1]]
  }

  function ClaimOf(sv: StorageVolume): Claim {
    Claim(sv.name, sv.storageClassName, if sv.storageSize == "" then None else Some(sv.storageSize))
  }

  function ClaimsFor(svs: seq<StorageVolume>): seq<Claim> {
    if svs == [] then []
    else
      var front, sv := ClaimsFor(svs[..|svs| - 1]), svs[|svs| - 1];
      if SpecialStorageClassName(sv) != "" || ZeroSized(sv) then front else front + [ClaimOf(sv)]
  }

  /** The volumes that count, in their order: those without a size, or with one that does not start with
      zero. */
  lemma {:induction false} SizedIs(front: seq<StorageVolume>, sv: StorageVolume)
    ensures Sized([]) == []
    ensures Sized(front + [sv]) == Sized(front) + if sv.storageSize != "" && sv.storageSize[0] == '0' then [] else [sv]
  {
    assert (front + [sv])[..|front|] == front;
  }

  /** The claims in the order of their volumes: one for each volume that is rendered as a claim and counts,
      with its name, class and size, or no size. */
  lemma {:induction false} ClaimsAre(front: seq<StorageVolume>, sv: StorageVolume)
    ensures ClaimsFor([]) == []
    ensures ClaimsFor(front + [sv]) == ClaimsFor(front) +
      if !SourceOf(sv).ClaimSource? || (sv.storageSize != "" && sv.storageSize[0] == '0') then []
      else [Claim(sv.name, sv.storageClassName, if sv.storageSize == "" then None else Some(sv.storageSize))]
  {
    assert (front + [sv])[..|front|] == front;
    assert SourceOf(sv).ClaimSource? <==> SpecialStorageClassName(sv) == "";
  }

  method MountStorageVolumes(svs: seq<StorageVolume>) returns (volumes: seq<Volume>, mounts: seq<VolumeMount>)
    ensures |volumes| == |mounts| == |Sized(svs)|
    ensures forall i :: 0 <= i < |volumes| ==> volumes[i] == Volume(Sized(svs)[i].name, SourceOf(Sized(svs)[i]))
    ensures forall i :: 0 <= i < |mounts| ==>
      var sv := Sized(svs)[i]; mounts[i] == VolumeMount(sv.name, sv.mountPath, sv.subPath, sv.readOnly)
  {
    volumes, mounts := [], [];
    for k := 0 to |svs|
      invariant |volumes| == |mounts| == |Sized(svs[..k])|
      invariant forall i :: 0 <= i < |volumes| ==> volumes[i] == Volume(Sized(svs[..k])[i].name, SourceOf(Sized(svs[..k])[i]))
      invariant forall i :: 0 <= i < |mounts| ==>
        var sv := Sized(svs[..k])[i]; mounts[i] == VolumeMount(sv.name, sv.mountPath, sv.subPath, sv.readOnly)
    {
      assert svs[..k + 1][..k] == svs[..k];
      var sv := svs[k];
      if Strings.HasPrefix(sv.storageSize, "0") {
        continue;
      }
      var name := SpecialStorageClassName(sv);
      if name == EMPTY_DIR {
        volumes := volumes + [Volume(sv.name, EmptyDirSource)];
      } else if name == HOST_PATH {
        volumes := volumes + [Volume(sv.name, HostPathSource(sv.hostPath))];
      } else if name == CSI {
        volumes := volumes + [Volume(sv.name, CsiSource(sv.csi))];
      } else {
        volumes := volumes + [Volume(sv.name, ClaimSource(sv.name))];
      }
      mounts := mounts + [VolumeMount(sv.name, sv.mountPath, sv.subPath, false)];
      if sv.readOnly && |mounts| > 0 {
        mounts := mounts[|mounts| - 1 := mounts[|mounts| - 1].(readOnly := true)];
      }
    }
    assert svs[..|svs|] == svs;
  }

  method PVCList(svs: seq<StorageVolume>) returns (claims: seq<Claim>)
    ensures claims == ClaimsFor(svs)
  {
    hide SpecialStorageClassName;
    claims := [];
    for k := 0 to |svs|
      invariant claims == ClaimsFor(svs[..k])
    {
      assert svs[..k + 1][..k] == svs[..k];
      var sv := svs[k];
      if SpecialStorageClassName(sv) != "" {
        continue;
      }
      if Strings.HasPrefix(sv.storageSize, "0") {
        continue;
      }
      var claim := Claim(sv.name, sv.storageClassName, None);
      if sv.storageSize != "" {
        claim := claim.(storage := Some(sv.storageSize));
      }
      claims := claims + [claim];
    }
    assert svs[..|svs|] == svs;
  }

  /** The claims that a list of volumes refers to, in order. */
  function ClaimNames(svs: seq<StorageVolume>): seq<string> {
    if svs == [] then []
    else
      var front, source := ClaimNames(svs[..|svs| - 1]), SourceOf(svs[|svs| - 1]);
      if source.ClaimSource? then front + [source.claimName] else front
  }

  function TemplateNames(claims: seq<Claim>): (r: seq<string>)
    ensures |r| == |claims| && forall i :: 0 <= i < |r| ==> r[i] == claims[i].name
  {
    seq(|claims|, i requires 0 <= i < |claims| => claims[i].name)
  }

  /** The mounted volumes that refer to a claim are exactly the claim templates, in the same order. */
  lemma {:induction false} MountedClaimsAreTheTemplates(svs: seq<StorageVolume>)
    ensures ClaimNames(Sized(svs)) == TemplateNames(ClaimsFor(svs))
  {
    if svs != [] {
      var front, sv := svs[..|svs| - 1], svs[|svs| - 1];
      MountedClaimsAreTheTemplates(front);
      if !ZeroSized(sv) {
        assert Sized(svs)[..|Sized(svs)| - 1] == Sized(front);
        assert SourceOf(sv).ClaimSource? <==> SpecialStorageClassName(sv) == "";
      }
    }
  }

  // ---- validation ----

  datatype VolumeError = HostPathRequired | CsiRequired | CsiConflict | CsiStorageClass

  /** Unicode case folding, as far as ASCII words can tell: besides ASCII letters, the long s folds to s
      and the Kelvin sign to k. */
  function Fold(c: char): char {
    if c == '\U{017F}' then 's' else if c == '\U{212A}' then 'k' else Strings.LowerChar(c)
  }

  predicate EqualFold(a: string, b: string) {
    |a| == |b| && forall i :: 0 <= i < |a| ==> Fold(a[i]) == Fold(b[i])
  }

  predicate IsCsiClass(sv: StorageVolume) {
    sv.storageClassName.Some? && EqualFold(sv.storageClassName.value, CSI)
  }

  function ValidateCSI(sv: StorageVolume): Option<VolumeError> {
    if !IsCsiClass(sv) && sv.csi.None? then None
    else if sv.csi.Some? && sv.hostPath.Some? then Some(CsiConflict)
    else if !IsCsiClass(sv) && sv.storageClassName.Some? then Some(CsiStorageClass)
    else if sv.csi.None? || sv.csi.value == "" then Some(CsiRequired)
    else None
  }

  function Validate(sv: StorageVolume): Option<VolumeError> {
    if ValidateCSI(sv).Some? then ValidateCSI(sv)
    else if sv.storageClassName.Some? then
      if sv.storageClassName.value == HOST_PATH && (sv.hostPath.None? || sv.hostPath.value == "") then Some(HostPathRequired) else None
    else if sv.hostPath.Some? && sv.hostPath.value == "" then Some(HostPathRequired)
    else None
  }

  /** The csi class in any case, or with a long s. */
  predicate FoldsToCsi(c: string) {
    |c| == 3 && c[0] in {'c', 'C'} && c[1] in {'s', 'S', '\U{017F}'} && c[2] in {'i', 'I'}
  }

  lemma FoldsToCsiIff(c: string)
    ensures EqualFold(c, CSI) <==> FoldsToCsi(c)
  {
    if |c| == 3 {
      FoldIs(c[0], 'c', 'C');
      FoldIs(c[2], 'i', 'I');
      assert Fold(c[1]) == 's' <==> c[1] in {'s', 'S', '\U{017F}'};
      assert CSI[0] == 'c' && CSI[1] == 's' && CSI[2] == 'i';
    }
  }

  lemma FoldIs(c: char, lower: char, upper: char)
    requires 'a' <= lower <= 'z' && upper as int == lower as int - 32 && lower !in {'s', 'k'}
    ensures Fold(c) == lower <==> c == lower || c == upper
    ensures Fold(lower) == lower
  {}

  /** What validation accepts: a CSI source with a driver and with the csi class or none; no csi class without
      a CSI source; a path behind the class hostPath, and behind a host path source without a class. */
  lemma ValidIff(sv: StorageVolume)
    ensures Validate(sv).None? <==>
      && (sv.csi.Some? ==>
            sv.csi.value != "" && sv.hostPath.None? && (sv.storageClassName.None? || FoldsToCsi(sv.storageClassName.value)))
      && (sv.csi.None? ==> sv.storageClassName.None? || !FoldsToCsi(sv.storageClassName.value))
      && (sv.storageClassName == Some("hostPath") ==> sv.hostPath.Some? && sv.hostPath.value != "")
      && (sv.storageClassName.None? && sv.hostPath.Some? ==> sv.hostPath.value != "")
  {
    hide EqualFold, FoldsToCsi;
    if sv.storageClassName.Some? {
      FoldsToCsiIff(sv.storageClassName.value);
    }
  }

  /** Which error the others get. */
  lemma ErrorIs(sv: StorageVolume)
    ensures Validate(sv) == Some(CsiConflict) <==> sv.csi.Some? && sv.hostPath.Some?
    ensures Validate(sv) == Some(CsiStorageClass) <==>
      sv.csi.Some? && sv.hostPath.None? && sv.storageClassName.Some? && !FoldsToCsi(sv.storageClassName.value)
    ensures Validate(sv) == Some(CsiRequired) <==>
      || (sv.csi.None? && sv.storageClassName.Some? && FoldsToCsi(sv.storageClassName.value))
      || (sv.csi == Some("") && sv.hostPath.None? && (sv.storageClassName.None? || FoldsToCsi(sv.storageClassName.value)))
  {
    hide EqualFold, FoldsToCsi;
    if sv.storageClassName.Some? {
      FoldsToCsiIff(sv.storageClassName.value);
    }
  }

  predicate Ascii(s: string) {
    forall i :: 0 <= i < |s| ==> s[i] as int < 128
  }

  lemma FoldOfAscii(a: string, b: string)
    requires Ascii(a) && Ascii(b)
    ensures EqualFold(a, b) <==> EqualsIgnoreCase(a, b)
  {
    var x, y := Strings.ToLower(a), Strings.ToLower(b);
    if EqualsIgnoreCase(a, b) {
      forall i | 0 <= i < |a| ensures Fold(a[i]) == Fold(b[i]) {
        assert x[i] == y[i];
      }
    }
    if EqualFold(a, b) {
      assert forall i :: 0 <= i < |a| ==> Fold(a[i]) == x[i] && Fold(b[i]) == y[i];
    }
  }

  lemma ClassesDiffer(c: string)
    ensures !(EqualsIgnoreCase(c, CSI) && EqualsIgnoreCase(c, EMPTY_DIR))
    ensures !(EqualsIgnoreCase(c, CSI) && EqualsIgnoreCase(c, HOST_PATH))
  {
    assert |Strings.ToLower(CSI)| != |Strings.ToLower(EMPTY_DIR)| && |Strings.ToLower(CSI)| != |Strings.ToLower(HOST_PATH)|;
  }

  /** A validated volume with an ASCII class name is rendered as CSI exactly when it has a CSI source, and
      then with a driver; it never falls back to a claim. */
  lemma ValidatedCsiIsRendered(sv: StorageVolume)
    requires Validate(sv).None?
    requires sv.storageClassName.Some? ==> Ascii(sv.storageClassName.value)
    ensures SourceOf(sv).CsiSource? <==> sv.csi.Some?
    ensures sv.csi.Some? ==> sv.csi.value != "" && SourceOf(sv) == CsiSource(sv.csi)
  {
    if sv.storageClassName.Some? {
      FoldOfAscii(sv.storageClassName.value, CSI);
      ClassesDiffer(sv.storageClassName.value);
    }
  }

  /** With other class names a validated CSI volume is rendered as one unless the name folds to csi only
      beyond ASCII; there is such a name, and it ends up as a claim. */
  lemma LongSFallsBackToAClaim(sv: StorageVolume)
    requires Validate(sv).None? && sv.csi.Some?
    ensures SourceOf(sv).CsiSource? <==> sv.storageClassName.None? || EqualsIgnoreCase(sv.storageClassName.value, CSI)
    ensures var odd := StorageVolume("v", Some("c\U{017F}i"), "", None, Some("driver"), "/m", "", false);
      Validate(odd).None? && SourceOf(odd) == ClaimSource("v")
  {
    var odd := StorageVolume("v", Some("c\U{017F}i"), "", None, Some("driver"), "/m", "", false);
    var c := odd.storageClassName.value;
    assert Strings.ToLower(c)[1] == '\U{017F}' && Strings.ToLower(CSI)[1] == 's';
    assert |Strings.ToLower(c)| != |Strings.ToLower(EMPTY_DIR)| && |Strings.ToLower(c)| != |Strings.ToLower(HOST_PATH)|;
    if sv.storageClassName.Some? {
      ClassesDiffer(sv.storageClassName.value);
    }
  }

  predicate HasHostPath(sv: StorageVolume) {
    sv.hostPath.Some? && sv.hostPath.value != ""
  }

  /** Validation knows the host path class only by its exact spelling, the renderer by any.  Of the
      spellings that are rendered as a host path, only the exact one guarantees that there is a path; leaving
      the class out guarantees it too. */
  lemma OnlyTheExactSpellingGuaranteesAHostPath(c: string)
    requires EqualsIgnoreCase(c, HOST_PATH)
    ensures (forall sv: StorageVolume :: sv.storageClassName == Some(c) && Validate(sv).None? ==> HasHostPath(sv)) <==> c == "hostPath"
    ensures forall sv: StorageVolume :: sv.storageClassName == Some(c) ==> SourceOf(sv) == HostPathSource(sv.hostPath)
    ensures forall sv: StorageVolume :: sv.storageClassName.None? && sv.hostPath.Some? && Validate(sv).None? ==> HasHostPath(sv)
  {
    assert Strings.ToLower(HOST_PATH)[0] == 'h' && Strings.ToLower(EMPTY_DIR)[0] == 'e';
    if c != HOST_PATH {
      var sv := StorageVolume("v", Some(c), "", None, None, "/m", "", false);
      assert |c| != |CSI|;
      assert Validate(sv).None? && !HasHostPath(sv);
    }
  }
}
