/** The kube-vip static pod manifest patch of the Bottlerocket bootstrap.

    The patch is two chained whole-text replacements. The theorems are stated for
    any texts and any search string whose first character does not come back
    inside it, and are then instantiated with the two literal paths. */
module KubeVip {
  import opened Basics

  const OLD_ETC := "path: /etc/kubernetes/admin.conf"
  const NEW_ETC := "path: /etc/kubernetes/super-admin.conf"
  const OLD_VAR := "path: /var/lib/kubeadm/admin.conf"
  const NEW_VAR := "path: /var/lib/kubeadm/super-admin.conf"

  /** Replaces the leftmost non-overlapping occurrences of a non-empty text. */
  function ReplaceAll(s: string, from: string, to: string): (r: string)
    requires from != ""
    decreases |s|
  {
    if s == "" then ""
    else if from <= s then to + ReplaceAll(s[|from|..], from, to)
    else [s[0]] + ReplaceAll(s[1..], from, to)
  }

  function Patch(contents: string): (r: string) {
    ReplaceAll(ReplaceAll(contents, OLD_ETC, NEW_ETC), OLD_VAR, NEW_VAR)
  }

  // ---- Reference: cutting a text at a separator and joining it again ----

  /** The maximal cut of s at the leftmost occurrences of sep. */
  function Cut(s: string, sep: string): (pieces: seq<string>)
    requires sep != ""
    ensures pieces != []
    decreases |s|
  {
    if s == "" then [""]
    else if sep <= s then [""] + Cut(s[|sep|..], sep)
    else var rest := Cut(s[1..], sep); [[s[0]] + rest[0]] + rest[1..]
  }

  function Join(pieces: seq<string>, sep: string): (s: string) {
    if |pieces| == 0 then ""
    else if |pieces| == 1 then pieces[0]
    else pieces[0] + sep + Join(pieces[1..], sep)
  }

  lemma JoinGrowHead(c: char, pieces: seq<string>, sep: string)
    requires pieces != []
    ensures Join([[c] + pieces[0]] + pieces[1..], sep) == [c] + Join(pieces, sep)
  {
  }

  lemma JoinEmptyHead(rest: seq<string>, sep: string)
    requires rest != []
    ensures Join([""] + rest, sep) == sep + Join(rest, sep)
  {
    assert ([""] + rest)[1..] == rest;
    assert "" + sep == sep;
  }

  /** Joining with the new text what was cut at the old one is the replacement. */
  lemma {:induction false} ReplaceIsCutAndJoin(s: string, from: string, to: string)
    requires from != ""
    ensures ReplaceAll(s, from, to) == Join(Cut(s, from), to)
    decreases |s|
  {
    if s == "" {
    } else if from <= s {
      ReplaceIsCutAndJoin(s[|from|..], from, to);
      JoinEmptyHead(Cut(s[|from|..], from), to);
    } else {
      ReplaceIsCutAndJoin(s[1..], from, to);
      JoinGrowHead(s[0], Cut(s[1..], from), to);
    }
  }

  /** Nothing but the occurrences is lost by cutting. */
  lemma {:induction false} CutThenJoin(s: string, sep: string)
    requires sep != ""
    ensures Join(Cut(s, sep), sep) == s
    decreases |s|
  {
    if s == "" {
    } else if sep <= s {
      var rest := Cut(s[|sep|..], sep);
      CutThenJoin(s[|sep|..], sep);
      JoinEmptyHead(rest, sep);
      assert Cut(s, sep) == [""] + rest;
      assert s == sep + s[|sep|..];
    } else {
      var rest := Cut(s[1..], sep);
      CutThenJoin(s[1..], sep);
      JoinGrowHead(s[0], rest, sep);
      assert Cut(s, sep) == [[s[0]] + rest[0]] + rest[1..];
      assert s == [s[0]] + s[1..];
    }
  }

  /** No piece of a cut holds the separator, and the first piece starts the text. */
  lemma {:induction false} CutPiecesAreClean(s: string, sep: string)
    requires sep != ""
    ensures Cut(s, sep)[0] <= s
    ensures forall k :: 0 <= k < |Cut(s, sep)| ==> !Occurs(sep, Cut(s, sep)[k])
    decreases |s|
  {
    var pieces := Cut(s, sep);
    if s == "" {
    } else if sep <= s {
      CutPiecesAreClean(s[|sep|..], sep);
      assert forall k :: 1 <= k < |pieces| ==> pieces[k] == Cut(s[|sep|..], sep)[k - 1];
    } else {
      CutPiecesAreClean(s[1..], sep);
      var rest := Cut(s[1..], sep);
      assert forall k :: 1 <= k < |pieces| ==> pieces[k] == rest[k];
      assert pieces[0] == [s[0]] + rest[0];
      assert pieces[0] <= s;
      OccursInTail(sep, [s[0]], rest[0]);
      assert !OccursAt(sep, pieces[0], 0);
    }
  }

  // ---- Occurrences after a replacement ----

  /** Where an occurrence in a concatenation can start. */
  lemma OccursInTail(pat: string, front: string, back: string)
    ensures Occurs(pat, back) ==> Occurs(pat, front + back)
    ensures Occurs(pat, front + back) ==>
              Occurs(pat, back) || exists i :: 0 <= i < |front| && OccursAt(pat, front + back, i)
  {
    assert forall i :: 0 <= i <= |back| ==> (front + back)[|front| + i..] == back[i..];
    if Occurs(pat, back) {
      var i :| 0 <= i <= |back| && OccursAt(pat, back, i);
      assert OccursAt(pat, front + back, |front| + i);
    }
    if Occurs(pat, front + back) {
      var i :| 0 <= i <= |front + back| && OccursAt(pat, front + back, i);
      if i >= |front| {
        assert (front + back)[i..] == back[i - |front|..];
        assert OccursAt(pat, back, i - |front|);
      }
    }
  }

  /** The first character of pat does not come back later in pat. */
  ghost predicate HeadUnique(pat: string) {
    pat != "" && pat[0] !in pat[1..]
  }

  /** Laying pat over block from position k on shows a difference inside the block. */
  ghost predicate Clash(pat: string, block: string, k: nat) {
    exists j :: 0 <= j < |pat| && k + j < |block| && block[k + j] != pat[j]
  }

  /** No occurrence of pat, complete or running over the right end, starts inside block. */
  ghost predicate RefusedBy(pat: string, block: string) {
    forall k :: 0 <= k < |block| ==> Clash(pat, block, k)
  }

  lemma NoStartInside(pat: string, block: string, after: string)
    requires RefusedBy(pat, block)
    ensures forall i :: 0 <= i < |block| ==> !OccursAt(pat, block + after, i)
  {
    forall i | 0 <= i < |block| ensures !OccursAt(pat, block + after, i) {
      assert Clash(pat, block, i);
      var j :| 0 <= j < |pat| && i + j < |block| && block[i + j] != pat[j];
      assert (block + after)[i..][j] == block[i + j];
    }
  }

  /** Text without the block's first character cannot reach into a replaced block. */
  lemma {:induction false} PlainPrefixIsCopied(t: string, s: string, from: string, to: string)
    requires from != "" && to != "" && to[0] !in t
    ensures t <= ReplaceAll(s, from, to) ==> t <= s
    decreases |s|
  {
    if t == "" || s == "" {
    } else if from <= s {
      assert ReplaceAll(s, from, to)[0] == to[0];
      assert t[0] in t;
    } else {
      PlainPrefixIsCopied(t[1..], s[1..], from, to);
      assert ReplaceAll(s, from, to)[1..] == ReplaceAll(s[1..], from, to);
      assert s == [s[0]] + s[1..] && t == [t[0]] + t[1..];
    }
  }

  /** A replacement removes every occurrence of its own search text and creates none of
      another text that was absent, also across the borders of replaced blocks. */
  lemma {:induction false} ReplaceLeavesNone(pat: string, s: string, from: string, to: string)
    requires from != "" && to != "" && HeadUnique(pat) && to[0] == pat[0]
    requires RefusedBy(pat, to)
    requires pat == from || !Occurs(pat, s)
    ensures !Occurs(pat, ReplaceAll(s, from, to))
    decreases |s|
  {
    if s == "" {
    } else if from <= s {
      var rest := s[|from|..];
      assert s == from + rest;
      OccursInTail(pat, from, rest);
      ReplaceLeavesNone(pat, rest, from, to);
      OccursInTail(pat, to, ReplaceAll(rest, from, to));
      NoStartInside(pat, to, ReplaceAll(rest, from, to));
    } else {
      var rest := s[1..];
      var tail := ReplaceAll(rest, from, to);
      assert s == [s[0]] + rest;
      OccursInTail(pat, [s[0]], rest);
      ReplaceLeavesNone(pat, rest, from, to);
      OccursInTail(pat, [s[0]], tail);
      PlainPrefixIsCopied(pat[1..], rest, from, to);
      assert pat == [pat[0]] + pat[1..];
      assert ([s[0]] + tail)[1..] == tail;
      assert OccursAt(pat, s, 0) == (pat <= s);
      assert !OccursAt(pat, [s[0]] + tail, 0);
    }
  }

  lemma {:induction false} ReplaceNothing(s: string, from: string, to: string)
    requires from != "" && !Occurs(from, s)
    ensures ReplaceAll(s, from, to) == s
    decreases |s|
  {
    if s != "" {
      assert !OccursAt(from, s, 0);
      assert s == [s[0]] + s[1..];
      OccursInTail(from, [s[0]], s[1..]);
      ReplaceNothing(s[1..], from, to);
    }
  }

  // ---- The two literal replacements ----

  /** A block holding the letter p only at its start and once inside refuses a text that
      starts with "pa", when it differs from it early and does not go on with "pa" inside. */
  lemma RefusedByTwoHeads(pat: string, front: string, back: string, j: nat)
    requires |pat| > 1 && pat[0] == 'p' && pat[1] == 'a'
    requires 'p' !in front && 'p' !in back && back != "" && back[0] != 'a'
    requires j < |pat| && 0 < j <= |front| && front[j - 1] != pat[j]
    ensures RefusedBy(pat, "p" + front + "p" + back)
  {
  }

  // The stretches of the literals between their letters p.
  const ETC := "ath: /etc/kubernetes/"
  const LIB := "ath: /var/lib/kubeadm/"
  const TAIL := "er-admin.conf"

  lemma SpellOldEtc()
    ensures OLD_ETC == "p" + (ETC + "admin.conf")
  {
  }

  lemma SpellOldVar()
    ensures OLD_VAR == "p" + (LIB + "admin.conf")
  {
  }

  lemma SpellNewEtc()
    ensures NEW_ETC == "p" + (ETC + "su") + "p" + TAIL
  {
  }

  lemma SpellNewVar()
    ensures NEW_VAR == "p" + (LIB + "su") + "p" + TAIL
  {
  }

  lemma PlainStretches()
    ensures 'p' !in ETC && 'p' !in LIB && 'p' !in "admin.conf" && 'p' !in "su" && 'p' !in TAIL
    ensures |ETC| == 21 && |LIB| == 22 && ETC[0] == LIB[0] == "admin.conf"[0] == 'a' && ETC[6] == 'e' && LIB[6] == 'v'
    ensures TAIL != "" && TAIL[0] == 'e' && "su"[0] == 's'
  {
  }

  lemma HeadUniqueFrom(rest: string)
    requires 'p' !in rest
    ensures HeadUnique("p" + rest)
  {
    assert ("p" + rest)[1..] == rest;
  }

  lemma OldPathsHeadUnique()
    ensures HeadUnique(OLD_ETC) && HeadUnique(OLD_VAR) && OLD_ETC[0] == OLD_VAR[0] == NEW_ETC[0] == NEW_VAR[0]
  {
    PlainStretches();
    SpellOldEtc(); SpellOldVar(); SpellNewEtc(); SpellNewVar();
    HeadUniqueFrom(ETC + "admin.conf");
    HeadUniqueFrom(LIB + "admin.conf");
  }

  lemma NewPathsRefuseOld()
    ensures RefusedBy(OLD_ETC, NEW_ETC) && RefusedBy(OLD_ETC, NEW_VAR)
    ensures RefusedBy(OLD_VAR, NEW_VAR) && RefusedBy(OLD_VAR, NEW_ETC)
  {
    PlainStretches();
    SpellOldEtc(); SpellOldVar(); SpellNewEtc(); SpellNewVar();
    RefusedByTwoHeads("p" + (ETC + "admin.conf"), ETC + "su", TAIL, 22);
    RefusedByTwoHeads("p" + (ETC + "admin.conf"), LIB + "su", TAIL, 7);
    RefusedByTwoHeads("p" + (LIB + "admin.conf"), LIB + "su", TAIL, 23);
    RefusedByTwoHeads("p" + (LIB + "admin.conf"), ETC + "su", TAIL, 7);
  }

  /** After one patch neither old path is left anywhere. */
  lemma PatchRemovesOldPaths(contents: string)
    ensures !Occurs(OLD_ETC, Patch(contents)) && !Occurs(OLD_VAR, Patch(contents))
  {
    OldPathsHeadUnique();
    NewPathsRefuseOld();
    var first := ReplaceAll(contents, OLD_ETC, NEW_ETC);
    ReplaceLeavesNone(OLD_ETC, contents, OLD_ETC, NEW_ETC);
    ReplaceLeavesNone(OLD_ETC, first, OLD_VAR, NEW_VAR);
    ReplaceLeavesNone(OLD_VAR, first, OLD_VAR, NEW_VAR);
  }

  /** The patch changes a manifest exactly when one of the old paths occurs in it. */
  lemma PatchFixpoint(contents: string)
    ensures Patch(contents) == contents <==> !Occurs(OLD_ETC, contents) && !Occurs(OLD_VAR, contents)
  {
    PatchRemovesOldPaths(contents);
    if !Occurs(OLD_ETC, contents) && !Occurs(OLD_VAR, contents) {
      ReplaceNothing(contents, OLD_ETC, NEW_ETC);
      ReplaceNothing(contents, OLD_VAR, NEW_VAR);
    }
  }

  lemma PatchIdempotent(contents: string)
    ensures Patch(Patch(contents)) == Patch(contents)
  {
    PatchRemovesOldPaths(contents);
    PatchFixpoint(Patch(contents));
  }

  // ---- What is put in place of what ----

  /** Both replacements at once, in one pass over the text. */
  function PatchInOnePass(s: string): (r: string)
    decreases |s|
  {
    if s == "" then ""
    else if OLD_ETC <= s then NEW_ETC + PatchInOnePass(s[|OLD_ETC|..])
    else if OLD_VAR <= s then NEW_VAR + PatchInOnePass(s[|OLD_VAR|..])
    else [s[0]] + PatchInOnePass(s[1..])
  }

  /** A text inside which no occurrence starts is copied. */
  lemma {:induction false} RefusingFrontIsCopied(block: string, after: string, from: string, to: string)
    requires from != "" && RefusedBy(from, block)
    ensures ReplaceAll(block + after, from, to) == block + ReplaceAll(after, from, to)
    decreases |block|
  {
    if block == "" {
      assert block + after == after;
    } else {
      NoStartInside(from, block, after);
      assert !OccursAt(from, block + after, 0);
      assert (block + after)[1..] == block[1..] + after;
      forall k | 0 <= k < |block[1..]| ensures Clash(from, block[1..], k) {
        assert Clash(from, block, k + 1);
        var j :| 0 <= j < |from| && k + 1 + j < |block| && block[k + 1 + j] != from[j];
        assert block[1..][k + j] == block[k + 1 + j];
      }
      RefusingFrontIsCopied(block[1..], after, from, to);
    }
  }

  /** A text whose head comes back nowhere refuses another one that differs from it. */
  lemma RefusedByOneHead(pat: string, block: string, j: nat)
    requires HeadUnique(block) && pat != "" && pat[0] == block[0]
    requires j < |pat| && j < |block| && pat[j] != block[j]
    ensures RefusedBy(pat, block)
  {
    forall k | 0 <= k < |block| ensures Clash(pat, block, k) {
      if k == 0 {
        assert block[0 + j] != pat[j];
      } else {
        assert block[1..][k - 1] == block[k];
        assert block[k + 0] != pat[0];
      }
    }
  }

  lemma OldPathsRefuseEachOther()
    ensures RefusedBy(OLD_ETC, OLD_VAR)
    ensures OLD_ETC[7] == 'e' && OLD_VAR[7] == 'v'
  {
    PlainStretches();
    SpellOldEtc(); SpellOldVar();
    OldPathsHeadUnique();
    RefusedByOneHead(OLD_ETC, OLD_VAR, 7);
  }

  /** The two chained replacements are one simultaneous one. */
  lemma {:induction false} PatchIsOnePass(s: string)
    ensures Patch(s) == PatchInOnePass(s)
    decreases |s|
  {
    OldPathsHeadUnique();
    NewPathsRefuseOld();
    OldPathsRefuseEachOther();
    if s == "" {
    } else if OLD_ETC <= s {
      var rest := s[|OLD_ETC|..];
      PatchIsOnePass(rest);
      RefusingFrontIsCopied(NEW_ETC, ReplaceAll(rest, OLD_ETC, NEW_ETC), OLD_VAR, NEW_VAR);
    } else if OLD_VAR <= s {
      var rest := s[|OLD_VAR|..];
      PatchIsOnePass(rest);
      assert s == OLD_VAR + rest;
      RefusingFrontIsCopied(OLD_VAR, rest, OLD_ETC, NEW_ETC);
      OneMore(OLD_VAR, ReplaceAll(rest, OLD_ETC, NEW_ETC), NEW_VAR);
    } else {
      PatchIsOnePass(s[1..]);
      CopiedFirst(s);
    }
  }

  lemma OneMore(from: string, after: string, to: string)
    requires from != ""
    ensures ReplaceAll(from + after, from, to) == to + ReplaceAll(after, from, to)
  {
    assert (from + after)[|from|..] == after;
  }

  /** A character at which neither old path starts is copied by both replacements. */
  lemma CopiedFirst(s: string)
    requires s != "" && !(OLD_ETC <= s) && !(OLD_VAR <= s)
    ensures Patch(s) == [s[0]] + Patch(s[1..])
  {
    OldPathsHeadUnique();
    var tail := ReplaceAll(s[1..], OLD_ETC, NEW_ETC);
    var first := [s[0]] + tail;
    assert first[1..] == tail;
    PlainPrefixIsCopied(OLD_VAR[1..], s[1..], OLD_ETC, NEW_ETC);
    HeadThenTail(OLD_VAR, first);
    HeadThenTail(OLD_VAR, s);
  }

  lemma HeadThenTail(pat: string, s: string)
    requires pat != "" && s != ""
    ensures pat <= s <==> pat[0] == s[0] && pat[1..] <= s[1..]
  {
    assert pat == [pat[0]] + pat[1..] && s == [s[0]] + s[1..];
  }

  /** No old path starts within the first n characters. */
  ghost predicate CleanFront(text: string, n: nat) {
    forall i :: 0 <= i < n ==> !OccursAt(OLD_ETC, text, i) && !OccursAt(OLD_VAR, text, i)
  }

  lemma StartShifts(pat: string, text: string, i: nat)
    requires i < |text|
    ensures OccursAt(pat, text[1..], i) <==> OccursAt(pat, text, i + 1)
    ensures OccursAt(pat, text, 0) <==> pat <= text
  {
    assert text[1..][i..] == text[i + 1..] && text[0..] == text;
  }

  lemma CleanFrontShrinks(text: string, n: nat)
    requires 0 < n <= |text| && CleanFront(text, n)
    ensures !(OLD_ETC <= text) && !(OLD_VAR <= text) && CleanFront(text[1..], n - 1)
  {
    StartShifts(OLD_ETC, text, 0);
    StartShifts(OLD_VAR, text, 0);
    forall i | 0 <= i < n - 1 ensures !OccursAt(OLD_ETC, text[1..], i) && !OccursAt(OLD_VAR, text[1..], i) {
      StartShifts(OLD_ETC, text, i);
      StartShifts(OLD_VAR, text, i);
    }
  }

  lemma FirstThenRest(a: string, b: string)
    requires a != ""
    ensures (a + b)[0] == a[0] && (a + b)[1..] == a[1..] + b && [a[0]] + (a[1..] + b) == a + b
  {
  }

  lemma {:induction false} CleanFrontIsCopied(pre: string, rest: string, patched: string)
    requires CleanFront(pre + rest, |pre|) && patched == Patch(rest)
    ensures Patch(pre + rest) == pre + patched
    decreases |pre|
  {
    if pre == "" {
      assert pre + rest == rest && pre + patched == patched;
    } else {
      CleanFrontShrinks(pre + rest, |pre|);
      CopiedFirst(pre + rest);
      FirstThenRest(pre, rest);
      CleanFrontIsCopied(pre[1..], rest, patched);
      FirstThenRest(pre, patched);
    }
  }

  /** At its first old path a manifest is patched like this, and what follows is patched in the same way. */
  lemma PatchWritesSuperAdmin(pre: string, post: string)
    ensures CleanFront(pre + ("path: /etc/kubernetes/admin.conf" + post), |pre|) ==>
              Patch(pre + ("path: /etc/kubernetes/admin.conf" + post)) ==
                pre + ("path: /etc/kubernetes/super-admin.conf" + Patch(post))
    ensures CleanFront(pre + ("path: /var/lib/kubeadm/admin.conf" + post), |pre|) ==>
              Patch(pre + ("path: /var/lib/kubeadm/admin.conf" + post)) ==
                pre + ("path: /var/lib/kubeadm/super-admin.conf" + Patch(post))
  {
    var etc, lib := OLD_ETC + post, OLD_VAR + post;
    if CleanFront(pre + etc, |pre|) { CleanFrontIsCopied(pre, etc, Patch(etc)); }
    if CleanFront(pre + lib, |pre|) { CleanFrontIsCopied(pre, lib, Patch(lib)); }
    OldPathsRefuseEachOther();
    PatchIsOnePass(etc);
    PatchIsOnePass(lib);
    PatchIsOnePass(post);
    assert etc[|OLD_ETC|..] == post && lib[|OLD_VAR|..] == post;
    assert lib[7] == OLD_VAR[7];
  }

  predicate EitherAt(p: string, q: string, text: string, i: nat) { OccursAt(p, text, i) || OccursAt(q, text, i) }

  lemma {:induction false} FirstStart(p: string, q: string, text: string, low: nat, high: nat) returns (n: nat)
    requires low <= high && EitherAt(p, q, text, high)
    requires forall i: nat :: i < low ==> !EitherAt(p, q, text, i)
    ensures n <= high && EitherAt(p, q, text, n)
    ensures forall i: nat :: i < n ==> !EitherAt(p, q, text, i)
    decreases high - low
  {
    if EitherAt(p, q, text, low) {
      n := low;
    } else {
      n := FirstStart(p, q, text, low + 1, high);
    }
  }

  lemma SomeStart(p: string, q: string, text: string) returns (n: nat)
    requires Occurs(p, text) || Occurs(q, text)
    ensures EitherAt(p, q, text, n)
  {
    if Occurs(p, text) {
      n :| 0 <= n <= |text| && OccursAt(p, text, n);
    } else {
      n :| 0 <= n <= |text| && OccursAt(q, text, n);
    }
  }

  lemma NeitherBefore(text: string, n: nat)
    requires forall i: nat :: i < n ==> !EitherAt(OLD_ETC, OLD_VAR, text, i)
    ensures CleanFront(text, n)
  {
    forall i | 0 <= i < n ensures !OccursAt(OLD_ETC, text, i) && !OccursAt(OLD_VAR, text, i) {
      assert !EitherAt(OLD_ETC, OLD_VAR, text, i);
    }
  }

  lemma SplitAt(pat: string, text: string, n: nat)
    requires OccursAt(pat, text, n)
    ensures n + |pat| <= |text| && text == text[..n] + (pat + text[n + |pat|..])
  {
    assert text[n..][..|pat|] == pat;
    assert text[n..][|pat|..] == text[n + |pat|..];
    assert text == text[..n] + text[n..];
  }

  lemma FirstOfTwo(p: string, q: string, text: string) returns (pre: string, post: string)
    requires Occurs(p, text) || Occurs(q, text)
    ensures text == pre + (p + post) || text == pre + (q + post)
    ensures forall i: nat :: i < |pre| ==> !EitherAt(p, q, text, i)
  {
    var high := SomeStart(p, q, text);
    var n := FirstStart(p, q, text, 0, high);
    pre := text[..n];
    if OccursAt(p, text, n) {
      SplitAt(p, text, n);
      post := text[n + |p|..];
    } else {
      SplitAt(q, text, n);
      post := text[n + |q|..];
    }
  }

  /** Every manifest with an old path has such a first one, so the patch is known for all manifests. */
  lemma FirstOldPath(contents: string) returns (pre: string, post: string)
    requires Occurs(OLD_ETC, contents) || Occurs(OLD_VAR, contents)
    ensures contents == pre + (OLD_ETC + post) || contents == pre + (OLD_VAR + post)
    ensures CleanFront(contents, |pre|)
  {
    pre, post := FirstOfTwo(OLD_ETC, OLD_VAR, contents);
    NeitherBefore(contents, |pre|);
  }
}
