/** Names of make targets and the rules that read them back: attribution and license files,
    and binaries under the output directory. */
module TargetNames {
  import opened Basics

  // ---- subst on single characters, and the two nested chains ----

  function Subst(from: char, to: char, s: string): (r: string) {
    if s == "" then "" else [if s[0] == from then to else s[0]] + Subst(from, to, s[1..])
  }

  lemma {:induction false} SubstAt(from: char, to: char, s: string)
    ensures |Subst(from, to, s)| == |s|
    ensures forall i :: 0 <= i < |s| ==> Subst(from, to, s)[i] == if s[i] == from then to else s[i]
  {
    if s != "" { SubstAt(from, to, s[1..]); }
  }

  function LowerLetter(k: nat): (c: char) requires k < 26 { 'a' + k as char }
  function UpperLetter(k: nat): (c: char) requires k < 26 { 'A' + k as char }

  /** TO_UPPER from letter k of the alphabet inwards; the hyphen is replaced first. */
  function UpperFrom(k: nat, s: string): (r: string)
    requires k <= 26
    decreases 26 - k, s
  {
    if k == 26 then Subst('-', '_', s) else Subst(LowerLetter(k), UpperLetter(k), UpperFrom(k + 1, s))
  }

  function LowerFrom(k: nat, s: string): (r: string)
    requires k <= 26
    decreases 26 - k, s
  {
    if k == 26 then Subst('_', '-', s) else Subst(UpperLetter(k), LowerLetter(k), LowerFrom(k + 1, s))
  }

  function ToUpper(s: string): (r: string) { UpperFrom(0, s) }
  function ToLower(s: string): (r: string) { LowerFrom(0, s) }

  function UpperChar(c: char): (r: char) {
    if 'a' <= c <= 'z' then 'A' + (c - 'a') else if c == '-' then '_' else c
  }

  function LowerChar(c: char): (r: char) {
    if 'A' <= c <= 'Z' then 'a' + (c - 'A') else if c == '_' then '-' else c
  }

  lemma {:induction false} UpperFromIsPointwise(k: nat, s: string)
    requires k <= 26
    ensures |UpperFrom(k, s)| == |s|
    ensures forall i :: 0 <= i < |s| ==>
              UpperFrom(k, s)[i] ==
              if 'a' as int + k <= s[i] as int <= 'z' as int || s[i] == '-' then UpperChar(s[i]) else s[i]
    decreases 26 - k
  {
    if k == 26 {
      SubstAt('-', '_', s);
    } else {
      UpperFromIsPointwise(k + 1, s);
      SubstAt(LowerLetter(k), UpperLetter(k), UpperFrom(k + 1, s));
    }
  }

  lemma {:induction false} LowerFromIsPointwise(k: nat, s: string)
    requires k <= 26
    ensures |LowerFrom(k, s)| == |s|
    ensures forall i :: 0 <= i < |s| ==>
              LowerFrom(k, s)[i] ==
              if 'A' as int + k <= s[i] as int <= 'Z' as int || s[i] == '_' then LowerChar(s[i]) else s[i]
    decreases 26 - k
  {
    if k == 26 {
      SubstAt('_', '-', s);
    } else {
      LowerFromIsPointwise(k + 1, s);
      SubstAt(UpperLetter(k), LowerLetter(k), LowerFrom(k + 1, s));
    }
  }

  /** The 27 nested substitutions are one pointwise map, in both chains. */
  lemma ChainsArePointwise(s: string)
    ensures |ToUpper(s)| == |s| && forall i :: 0 <= i < |s| ==> ToUpper(s)[i] == UpperChar(s[i])
    ensures |ToLower(s)| == |s| && forall i :: 0 <= i < |s| ==> ToLower(s)[i] == LowerChar(s[i])
  {
    UpperFromIsPointwise(0, s);
    LowerFromIsPointwise(0, s);
  }

  predicate PlainChar(c: char) { c != '_' && !('A' <= c <= 'Z') }
  predicate PlainName(s: string) { forall c :: c in s ==> PlainChar(c) }

  /** Upper-casing a name and lower-casing it again gives the name back exactly when it has no
      upper-case letter and no underscore. */
  lemma LowerUndoesUpperIff(s: string)
    ensures ToLower(ToUpper(s)) == s <==> PlainName(s)
  {
    ChainsArePointwise(s);
    ChainsArePointwise(ToUpper(s));
    assert forall c :: LowerChar(UpperChar(c)) == c <==> PlainChar(c);
    if ToLower(ToUpper(s)) == s {
      forall c | c in s ensures PlainChar(c) {
        var i :| 0 <= i < |s| && s[i] == c;
        assert ToLower(ToUpper(s))[i] == LowerChar(UpperChar(s[i]));
      }
    }
  }

  lemma UpperInjectiveOnPlain(a: string, b: string)
    requires PlainName(a) && PlainName(b) && ToUpper(a) == ToUpper(b)
    ensures a == b
  {
    LowerUndoesUpperIff(a);
    LowerUndoesUpperIff(b);
  }

  // ---- Directory and file part of a path, suffixes ----

  /** The part after the last slash. */
  function FilePart(s: string): (f: string)
    ensures '/' !in f && |f| <= |s| && ('/' in s ==> |f| < |s|)
  {
    if '/' in s then FilePart(s[1..]) else s
  }

  /** The part before it, or a dot. */
  function DirPart(s: string): (d: string) {
    if '/' in s then s[..|s| - |FilePart(s)| - 1] else "."
  }

  lemma {:induction false} PartsOf(dir: string, file: string)
    requires '/' !in file
    ensures FilePart(dir + "/" + file) == file && DirPart(dir + "/" + file) == dir
    ensures FilePart(file) == file && DirPart(file) == "."
  {
    var s := dir + "/" + file;
    assert s[|dir|] == '/';
    if dir == "" {
      assert s[1..] == file;
    } else {
      PartsOf(dir[1..], file);
      assert s[1..] == dir[1..] + "/" + file;
    }
  }

  /** $(x:%suffix=%) on one word. */
  function DropSuffix(s: string, suffix: string): (r: string) {
    if |suffix| <= |s| && s[|s| - |suffix|..] == suffix then s[..|s| - |suffix|] else s
  }

  lemma DropAppended(s: string, suffix: string)
    ensures DropSuffix(s + suffix, suffix) == s
  {
    assert (s + suffix)[|s|..] == suffix && (s + suffix)[..|s|] == s;
  }

  // ---- Attribution files and license files ----

  const LICENSE := "ttribution/go-license.csv"

  /** The prefix of a binary: its override, else its own name unless it is in the first module. */
  function AttributionPrefix(override_: string, bin: string, mod: string, firstMod: string): (p: string) {
    if override_ != "" then override_ else if mod != firstMod then bin else ""
  }

  function AddTrailing(s: string, c: string): (r: string) { if s != "" then s + c else "" }

  /** LICENSE_TARGET_FROM_BINARY_GO_MOD for a prefix. */
  function LicenseTarget(output: string, prefix: string): (t: string) {
    output + "/" + AddTrailing(prefix, "/") + "a" + LICENSE
  }

  /** ATTRIBUTION_TARGET_FROM_BINARY_GO_MOD without "TTRIBUTION.txt": the stem of its rule. */
  function AttributionStem(branch: string, prefix: string): (t: string) {
    AddTrailing(branch, "/") + AddTrailing(ToUpper(prefix), "_") + "A"
  }

  /** LICENSE_TARGET as the attribution rule computes it from its stem. */
  function LicenseFromAttribution(output: string, stem: string): (t: string) {
    var f := FilePart(stem);
    output + (if f == "A" then "" else "/" + ToLower(DropSuffix(f, "_A"))) + "/a" + LICENSE
  }

  lemma AttributionFile(branch: string, prefix: string)
    requires '/' !in prefix
    ensures FilePart(AttributionStem(branch, prefix)) == AddTrailing(ToUpper(prefix), "_") + "A"
  {
    var upper := ToUpper(prefix);
    var file := AddTrailing(upper, "_") + "A";
    ChainsArePointwise(prefix);
    forall i | 0 <= i < |upper| ensures upper[i] != '/' { assert prefix[i] in prefix; }
    PartsOf(branch, file);
    assert AttributionStem(branch, prefix) == if branch == "" then file else branch + "/" + file;
  }

  lemma LicenseReadIs(output: string, branch: string, prefix: string)
    requires '/' !in prefix && prefix != ""
    ensures LicenseFromAttribution(output, AttributionStem(branch, prefix)) ==
            (output + "/") + ToLower(ToUpper(prefix)) + ("/a" + LICENSE)
  {
    var upper := ToUpper(prefix);
    AttributionFile(branch, prefix);
    ChainsArePointwise(prefix);
    assert upper + "_" + "A" == upper + "_A";
    DropAppended(upper, "_A");
    Regroup(output, ToLower(upper), LICENSE);
  }

  lemma Regroup(output: string, name: string, tail: string)
    ensures output + ("/" + name) + "/a" + tail == (output + "/") + name + ("/a" + tail)
    ensures output + "/" + (name + "/") + "a" + tail == (output + "/") + name + ("/a" + tail)
    ensures output + "" + "/a" + tail == output + "/" + "" + "a" + tail
  {
  }

  /** The license file an attribution file waits for is the one made for its binary exactly when
      the prefix has no upper-case letter and no underscore. */
  lemma AttributionFindsLicenseIff(output: string, branch: string, prefix: string)
    requires '/' !in prefix
    ensures LicenseFromAttribution(output, AttributionStem(branch, prefix)) == LicenseTarget(output, prefix)
            <==> PlainName(prefix)
  {
    if prefix != "" {
      LicenseReadIs(output, branch, prefix);
      Regroup(output, prefix, LICENSE);
      SameMiddle(output + "/", ToLower(ToUpper(prefix)), prefix, "/a" + LICENSE);
      LowerUndoesUpperIff(prefix);
    } else {
      AttributionFile(branch, prefix);
      ChainsArePointwise(prefix);
      assert AddTrailing(ToUpper(prefix), "_") + "A" == "A";
      Regroup(output, prefix, LICENSE);
    }
  }

  lemma SameMiddle(front: string, x: string, y: string, back: string)
    ensures front + x + back == front + y + back <==> x == y
  {
    if front + x + back == front + y + back {
      assert |x| == |y|;
      assert (front + x + back)[|front|..|front| + |x|] == x;
      assert (front + y + back)[|front|..|front| + |y|] == y;
    }
  }

  /** BINARY_TARGET as the license rule reads it from its stem. */
  function PrefixFromLicenseStem(stem: string): (p: string) {
    var d := DirPart(stem); if d == "." then "" else d
  }

  /** The license rule reads every prefix back, except the directory name ".". */
  lemma LicenseRuleReadsPrefixIff(prefix: string)
    ensures PrefixFromLicenseStem(AddTrailing(prefix, "/") + "a") == prefix <==> prefix != "."
  {
    PartsOf(prefix, "a");
    var stem := AddTrailing(prefix, "/") + "a";
    assert stem == if prefix == "" then "a" else prefix + "/" + "a";
    assert DirPart(stem) == if prefix == "" then "." else prefix;
  }

  // ---- Binaries ----

  predicate ForWindows(platform: string) { Occurs("windows", platform) }

  /** BINARY_TARGETS_FROM_FILES_PLATFORMS below the output directory: the stem of the binary rule. */
  function BinaryStem(platform: string, target: string): (s: string) {
    Subst('/', '-', platform) + "/" + (if ForWindows(platform) then target + ".exe" else target)
  }

  function PlatformFromStem(stem: string): (p: string) { Subst('-', '/', DirPart(stem)) }
  function BinaryFromStem(stem: string): (b: string) { DropSuffix(FilePart(stem), ".exe") }

  /** Platform and binary name are both recovered exactly when the platform has no hyphen, the
      name no slash, and a name ending in .exe is only built for windows. */
  lemma BinaryRuleReadsTargetIff(platform: string, target: string)
    requires platform != ""
    ensures var stem := BinaryStem(platform, target);
            PlatformFromStem(stem) == platform && BinaryFromStem(stem) == target <==>
            '-' !in platform && '/' !in target && (ForWindows(platform) || DropSuffix(target, ".exe") == target)
  {
    var stem := BinaryStem(platform, target);
    var dashed := Subst('/', '-', platform);
    var file := if ForWindows(platform) then target + ".exe" else target;
    SubstAt('/', '-', platform);
    SubstAt('-', '/', dashed);
    if '/' in target {
      assert '/' !in FilePart(stem);
      assert '/' !in BinaryFromStem(stem);
    } else {
      assert ".exe"[0] == '.' && ".exe"[1] == 'e' && ".exe"[2] == 'x' && ".exe"[3] == 'e';
      assert '/' !in file;
      PartsOf(dashed, file);
      DropAppended(target, ".exe");
      var back := Subst('-', '/', dashed);
      if '-' in platform {
        var i :| 0 <= i < |platform| && platform[i] == '-';
        assert back[i] == '/';
      } else {
        assert forall i :: 0 <= i < |platform| ==> platform[i] in platform && back[i] == platform[i];
        assert back == platform;
      }
    }
  }

  // ---- The names themselves ----

  /** A binary lies in a directory named after its platform with hyphens for slashes, and has the extension
      exactly when the platform's name holds windows. */
  lemma BinaryStemIs(platform: string, target: string)
    requires '/' !in target
    ensures var stem := BinaryStem(platform, target);
            && |DirPart(stem)| == |platform|
            && (forall i :: 0 <= i < |platform| ==> DirPart(stem)[i] == if platform[i] == '/' then '-' else platform[i])
            && FilePart(stem) == if Occurs("windows", platform) then target + ".exe" else target
  {
    var dashed, file := Subst('/', '-', platform), if ForWindows(platform) then target + ".exe" else target;
    SubstAt('/', '-', platform);
    assert ".exe"[0] == '.' && ".exe"[1] == 'e' && ".exe"[2] == 'x' && ".exe"[3] == 'e';
    PartsOf(dashed, file);
  }

  /** The attribution file of a release branch lies in the branch's directory, and is named after the
      upper-case prefix. */
  lemma AttributionStemIs(branch: string, prefix: string)
    requires '/' !in prefix
    ensures DirPart(AttributionStem(branch, prefix)) == if branch == "" then "." else branch
    ensures FilePart(AttributionStem(branch, prefix)) == if prefix == "" then "A" else ToUpper(prefix) + "_A"
  {
    var upper := ToUpper(prefix);
    var file := AddTrailing(upper, "_") + "A";
    ChainsArePointwise(prefix);
    forall i | 0 <= i < |upper| ensures upper[i] != '/' { assert prefix[i] in prefix; }
    PartsOf(branch, file);
    assert AttributionStem(branch, prefix) == if branch == "" then file else branch + "/" + file;
    assert upper + "_" + "A" == upper + "_A";
  }

  /** An attribution name of its own wins; else only binaries outside the first module have a prefix. */
  lemma AttributionPrefixIs(override_: string, bin: string, mod: string, firstMod: string)
    ensures AttributionPrefix(override_, bin, firstMod, firstMod) == override_
    ensures AttributionPrefix("", bin, mod, firstMod) in [bin, ""]
    ensures bin != "" && mod != firstMod ==> AttributionPrefix("", bin, mod, firstMod) == bin
    ensures override_ != "" ==> AttributionPrefix(override_, bin, mod, firstMod) == override_
  {
  }

  /** The license file of a prefix lies in the attribution directory below it. */
  lemma LicenseTargetIs(output: string, prefix: string)
    ensures LicenseTarget(output, prefix) ==
              output + "/" + (if prefix == "" then "" else prefix + "/") + "attribution/go-license.csv"
  {
    assert "a" + LICENSE == "attribution/go-license.csv";
    var front := output + "/" + AddTrailing(prefix, "/");
    assert front + "a" + LICENSE == front + ("a" + LICENSE);
  }
}
