/**
  Root-dotted host matchers as Caddy reads them (internal/caddyapi/routeorder.go): "a." is a matcher
  of its own, with an empty last label, while the overlap test compares "a". The overlaps this hides
  are exactly those between a matcher with root dots and one with as many more "*" labels.

  A matcher accepts, label by label, what its normalised labels followed by one empty label per root
  dot accept. Blank matchers accept nothing; what a matcher of unmodellable shape accepts is a
  parameter.
 */
module LiteralHosts {
  import opened Wrappers
  import opened Strings
  import opened HostMatch

  // ---------------------------------------------------------------- labels

  function Copies(text: string, k: nat): (ls: seq<string>)
    ensures |ls| == k && forall i :: 0 <= i < k ==> ls[i] == text
  {
    seq(k, i => text)
  }

  function Empties(k: nat): seq<string> {
    Copies("", k)
  }

  predicate Shaped(labels: seq<string>) {
    labels != [] && forall i :: 0 <= i < |labels| ==> ValidLabel(labels[i])
  }

  function Min(a: nat, b: nat): nat {
    if a < b then a else b
  }

  predicate StarsFrom(labels: seq<string>, n: nat) {
    forall i :: n <= i < |labels| ==> labels[i] == "*"
  }

  predicate MeetUpTo(a: seq<string>, b: seq<string>, n: nat)
    requires n <= |a| && n <= |b|
  {
    forall i :: 0 <= i < n ==> LabelsMeet(a[i], b[i])
  }

  /** a with j root dots and b with k: as many labels in all, but not as many without the dots, and
      the longer ends in wildcards where the shorter has its dots. */
  predicate Hidden(a: seq<string>, j: nat, b: seq<string>, k: nat) {
    var n := Min(|a|, |b|);
    |a| + j == |b| + k && |a| != |b| && MeetUpTo(a, b, n) && StarsFrom(a, n) && StarsFrom(b, n)
  }

  lemma HiddenFlips(a: seq<string>, j: nat, b: seq<string>, k: nat)
    requires Hidden(a, j, b, k)
    ensures Hidden(b, k, a, j)
  {
    var n := Min(|a|, |b|);
    forall i | 0 <= i < n ensures LabelsMeet(b[i], a[i]) {
      assert LabelsMeet(a[i], b[i]);
    }
  }

  /** A host that both accept when the overlap is hidden. */
  function HiddenHost(a: seq<string>, b: seq<string>, total: nat): (w: seq<string>)
    requires total >= |a| && total >= |b|
    ensures |w| == total
  {
    var n := Min(|a|, |b|);
    Witness(a[..n], b[..n]) + Empties(total - n)
  }

  lemma HiddenHostIsAccepted(a: seq<string>, j: nat, b: seq<string>, k: nat)
    requires Hidden(a, j, b, k)
    ensures LabelsAccept(a + Empties(j), HiddenHost(a, b, |a| + j))
    ensures LabelsAccept(b + Empties(k), HiddenHost(a, b, |a| + j))
  {
    var n, w := Min(|a|, |b|), HiddenHost(a, b, |a| + j);
    forall i | 0 <= i < |w| ensures LabelAccepts((a + Empties(j))[i], w[i]) && LabelAccepts((b + Empties(k))[i], w[i]) {
      if i < n {
        assert LabelsMeet(a[i], b[i]);
      }
    }
  }

  lemma EmptyFolds(s: string)
    requires EqualFold("", s) || EqualFold(s, "")
    ensures s == ""
  {
    assert |ToLower(s)| == |s|;
  }

  /** Two label lists that accept a common host meet position by position. */
  lemma CommonHostMeets(a: seq<string>, b: seq<string>, h: seq<string>, i: nat)
    requires LabelsAccept(a, h) && LabelsAccept(b, h) && i < |h|
    ensures LabelsMeet(a[i], b[i])
  {
    assert LabelAccepts(a[i], h[i]) && LabelAccepts(b[i], h[i]);
  }

  /** A common host of lists of different length makes the overlap a hidden one. */
  lemma CommonHostIsHidden(a: seq<string>, j: nat, b: seq<string>, k: nat, h: seq<string>)
    requires Shaped(a) && Shaped(b) && |a| != |b|
    requires LabelsAccept(a + Empties(j), h) && LabelsAccept(b + Empties(k), h)
    ensures Hidden(a, j, b, k)
  {
    var la, lb, n := a + Empties(j), b + Empties(k), Min(|a|, |b|);
    forall i | 0 <= i < n ensures LabelsMeet(a[i], b[i]) {
      CommonHostMeets(la, lb, h, i);
    }
    forall i | n <= i < |a| ensures a[i] == "*" {
      StarOverEmpty(a, la, lb, h, i);
    }
    forall i | n <= i < |b| ensures b[i] == "*" {
      StarOverEmpty(b, lb, la, h, i);
    }
  }

  lemma StarOverEmpty(a: seq<string>, la: seq<string>, lb: seq<string>, h: seq<string>, i: nat)
    requires Shaped(a) && i < |a| <= |la| && la[i] == a[i] && i < |lb| && lb[i] == ""
    requires LabelsAccept(la, h) && LabelsAccept(lb, h)
    ensures a[i] == "*"
  {
    assert LabelAccepts(lb[i], h[i]) && LabelAccepts(la[i], h[i]);
    EmptyFolds(h[i]);
    if a[i] != "*" {
      EmptyFolds(a[i]);
    }
  }

  // ---------------------------------------------------------------- matchers

  /** How many root dots normalising strips. */
  function RootDots(x: string): nat {
    var t := ToLower(TrimSpace(x));
    StripShortens(t);
    |t| - |StripRootDots(t)|
  }

  lemma StripShortens(t: string)
    ensures |StripRootDots(t)| <= |t|
  {
  }

  function LiteralLabels(idna: Idna, x: string): seq<string> {
    SplitDots(NormalizeHost(idna, x)) + Empties(RootDots(x))
  }

  predicate AcceptsLiterally(idna: Idna, expand: Expansion, x: string, host: string) {
    var m := NormalizeHost(idna, x);
    if m == "" then false
    else if !ValidHostMatcher(idna, m) then expand(x, host)
    else LabelsAccept(LiteralLabels(idna, x), SplitDots(host))
  }

  /** Normalising once is enough, as it is unless a space comes before a root dot. */
  predicate Stable(idna: Idna, x: string) {
    NormalizeHost(idna, NormalizeHost(idna, x)) == NormalizeHost(idna, x)
  }

  /** A matcher the overlap test can reason about. */
  predicate Modelled(idna: Idna, x: string) {
    Stable(idna, x) && ValidHostMatcher(idna, NormalizeHost(idna, x))
  }

  lemma ModelledIsShaped(idna: Idna, x: string)
    requires Modelled(idna, x)
    ensures NormalizeHost(idna, x) != "" && |NormalizeHost(idna, x)| <= 253
    ensures Shaped(SplitDots(NormalizeHost(idna, x)))
  {
  }

  predicate HiddenPair(idna: Idna, x: string, y: string) {
    Hidden(SplitDots(NormalizeHost(idna, x)), RootDots(x), SplitDots(NormalizeHost(idna, y)), RootDots(y))
  }

  /** Exactly when the test misses a real overlap of two matchers it can reason about. */
  lemma OverlapIsMissedExactly(idna: Idna, expand: Expansion, x: string, y: string)
    requires Modelled(idna, x) && Modelled(idna, y)
    ensures (!HostsOverlap(idna, x, y)
             && exists h :: AcceptsLiterally(idna, expand, x, h) && AcceptsLiterally(idna, expand, y, h))
            <==> HiddenPair(idna, x, y)
  {
    ModelledIsShaped(idna, x);
    ModelledIsShaped(idna, y);
    if HiddenPair(idna, x, y) {
      HiddenIsMissed(idna, expand, x, y);
    }
    if !HostsOverlap(idna, x, y) {
      if h :| AcceptsLiterally(idna, expand, x, h) && AcceptsLiterally(idna, expand, y, h) {
        MissedIsHidden(idna, expand, x, y, h);
      }
    }
  }

  lemma HiddenIsMissed(idna: Idna, expand: Expansion, x: string, y: string)
    requires Modelled(idna, x) && Modelled(idna, y) && HiddenPair(idna, x, y)
    ensures !HostsOverlap(idna, x, y)
    ensures exists h :: AcceptsLiterally(idna, expand, x, h) && AcceptsLiterally(idna, expand, y, h)
  {
    ModelledIsShaped(idna, x);
    ModelledIsShaped(idna, y);
    var a, b := SplitDots(NormalizeHost(idna, x)), SplitDots(NormalizeHost(idna, y));
    var w := HiddenHost(a, b, |a| + RootDots(x));
    HiddenHostIsAccepted(a, RootDots(x), b, RootDots(y));
    LabelsAreDotFree(NormalizeHost(idna, x));
    LabelsAreDotFree(NormalizeHost(idna, y));
    SplitUndoesJoin(w);
    assert AcceptsLiterally(idna, expand, x, JoinDots(w)) && AcceptsLiterally(idna, expand, y, JoinDots(w));
  }

  lemma MissedIsHidden(idna: Idna, expand: Expansion, x: string, y: string, h: string)
    requires Modelled(idna, x) && Modelled(idna, y) && !HostsOverlap(idna, x, y)
    requires AcceptsLiterally(idna, expand, x, h) && AcceptsLiterally(idna, expand, y, h)
    ensures HiddenPair(idna, x, y)
  {
    ModelledIsShaped(idna, x);
    ModelledIsShaped(idna, y);
    var a, b := SplitDots(NormalizeHost(idna, x)), SplitDots(NormalizeHost(idna, y));
    if |a| == |b| {
      forall i | 0 <= i < |a| ensures LabelsMeet(a[i], b[i]) {
        CommonHostMeets(LiteralLabels(idna, x), LiteralLabels(idna, y), SplitDots(h), i);
      }
    } else {
      CommonHostIsHidden(a, RootDots(x), b, RootDots(y), SplitDots(h));
    }
  }

  // ---------------------------------------------------------------- which matchers hide overlaps

  predicate InNormalForm(idna: Idna, n: string) {
    NormalizeHost(idna, n) == n && idna(n).Some?
  }

  /** IDNA conversion works label by label and leaves a lone star alone. */
  ghost predicate LabelByLabel(idna: Idna) {
    && InNormalForm(idna, "*")
    && forall ls {:trigger JoinDots(ls)} :: Shaped(ls) && |JoinDots(ls)| <= 253 ==>
         (InNormalForm(idna, JoinDots(ls)) <==> forall i :: 0 <= i < |ls| ==> InNormalForm(idna, ls[i]))
  }

  predicate NameChar(c: char) {
    LabelChar(c) || c == '*' || c == '.'
  }

  lemma {:induction false} NameIsPlain(ls: seq<string>)
    requires Shaped(ls)
    ensures |JoinDots(ls)| >= 2 * |ls| - 1
    ensures forall i :: 0 <= i < |JoinDots(ls)| ==> NameChar(JoinDots(ls)[i])
    decreases |ls|
  {
    if |ls| > 1 {
      NameIsPlain(ls[1..]);
      assert JoinDots(ls) == ls[0] + ("." + JoinDots(ls[1..]));
    }
    assert ValidLabel(ls[0]);
  }

  lemma NameSplits(ls: seq<string>)
    requires Shaped(ls)
    ensures SplitDots(JoinDots(ls)) == ls
  {
    forall i | 0 <= i < |ls| ensures DotFree(ls[i]) {
      assert ValidLabel(ls[i]);
    }
    SplitUndoesJoin(ls);
  }

  predicate PlainEnds(n: string) {
    n != "" && NameChar(n[0]) && n[0] != '.' && NameChar(n[|n| - 1]) && n[|n| - 1] != '.'
  }

  lemma {:induction false} NameEnds(ls: seq<string>)
    requires Shaped(ls)
    ensures PlainEnds(JoinDots(ls))
    decreases |ls|
  {
    assert ValidLabel(ls[0]);
    if |ls| > 1 {
      NameEnds(ls[1..]);
    }
  }

  lemma PlainNeedsNoTrim(n: string)
    requires PlainEnds(n)
    ensures TrimSpace(n) == n
  {
  }

  /** The joined labels, when in normal form, are a matcher of valid shape. */
  lemma NameIsModelled(idna: Idna, ls: seq<string>)
    requires Shaped(ls) && |JoinDots(ls)| <= 253 && InNormalForm(idna, JoinDots(ls))
    ensures ValidHostMatcher(idna, JoinDots(ls))
  {
    NameSplits(ls);
    NameEnds(ls);
    NameIsPlain(ls);
    PlainNeedsNoTrim(JoinDots(ls));
    PlainIsModelled(JoinDots(ls));
    ShapeIsValid(idna, JoinDots(ls));
  }

  lemma PlainIsModelled(n: string)
    requires forall i :: 0 <= i < |n| ==> NameChar(n[i])
    ensures !HasUnmodelled(n)
  {
    forall i | 0 <= i < |n| ensures !Unmodelled(n[i]) {
      assert NameChar(n[i]);
    }
  }

  lemma ShapeIsValid(idna: Idna, n: string)
    requires InNormalForm(idna, n) && |n| <= 253 && PlainEnds(n) && Shaped(SplitDots(n))
    requires TrimSpace(n) == n && !HasUnmodelled(n)
    ensures ValidHostMatcher(idna, n)
  {
  }

  function Dots(k: nat): (s: string)
    ensures |s| == k && forall i :: 0 <= i < k ==> s[i] == '.'
  {
    seq(k, i => '.')
  }

  lemma {:induction false} StripsDots(n: string, k: nat)
    requires n != "" && n[|n| - 1] != '.'
    ensures StripRootDots(n + Dots(k)) == n
    decreases k
  {
    if k == 0 {
      assert n + Dots(0) == n;
    } else {
      assert (n + Dots(k))[..|n| + k - 1] == n + Dots(k - 1);
      StripsDots(n, k - 1);
    }
  }

  lemma LowerTwice(s: string)
    ensures ToLower(ToLower(s)) == ToLower(s)
  {
  }

  lemma NormalFormIsLower(idna: Idna, n: string)
    requires NormalizeHost(idna, n) == n
    ensures ToLower(n) == n
  {
    var t := ToLower(TrimSpace(n));
    if t != "" {
      LowerTwice(TrimSpace(n));
      StripKeepsLower(t);
      match idna(StripRootDots(t))
      case Some(ascii) => LowerTwice(ascii);
      case None =>
    }
  }

  lemma {:induction false} StripKeepsLower(t: string)
    requires ToLower(t) == t
    ensures ToLower(StripRootDots(t)) == StripRootDots(t)
    decreases |t|
  {
    if |t| > 1 && t[|t| - 1] == '.' {
      var front := t[..|t| - 1];
      forall i | 0 <= i < |front| ensures ToLower(front)[i] == front[i] {
        assert ToLower(t)[i] == t[i];
      }
      StripKeepsLower(front);
    }
  }

  /** A name with k root dots is read as its labels and k empty ones, as its text is. */
  lemma DottedName(idna: Idna, ls: seq<string>, k: nat)
    requires Shaped(ls) && |JoinDots(ls)| <= 253 && InNormalForm(idna, JoinDots(ls))
    ensures var x := JoinDots(ls) + Dots(k);
            NormalizeHost(idna, x) == JoinDots(ls) && RootDots(x) == k && Modelled(idna, x)
  {
    var n := JoinDots(ls);
    var x := n + Dots(k);
    NameIsModelled(idna, ls);
    NameEnds(ls);
    NormalFormIsLower(idna, n);
    assert !IsSpace(x[0]) && !IsSpace(x[|x| - 1]);
    assert TrimSpace(x) == x && TrimSpace(n) == n;
    forall i | 0 <= i < |x| ensures ToLower(x)[i] == x[i] {
      if i < |n| {
        assert ToLower(n)[i] == n[i];
      }
    }
    assert ToLower(x) == x;
    StripsDots(n, k);
    StripsDots(n, 0);
    assert n + Dots(0) == n;
  }

  /** The text of such a matcher has just those labels. */
  lemma {:induction false} TextHasThoseLabels(n: string, k: nat)
    ensures SplitDots(n + Dots(k)) == SplitDots(n) + Empties(k)
    decreases k
  {
    if k == 0 {
      assert n + Dots(0) == n && SplitDots(n) + Empties(0) == SplitDots(n);
    } else {
      TextHasThoseLabels(n, k - 1);
      assert n + Dots(k) == (n + Dots(k - 1)) + ("." + "");
      SplitAtDot(n + Dots(k - 1), "");
      assert (SplitDots(n) + Empties(k - 1)) + [""] == SplitDots(n) + Empties(k);
    }
  }

  // ---------------------------------------------------------------- exactly which matchers hide overlaps

  /** No overlap of x with any other matcher is missed. */
  ghost predicate HidesNothing(idna: Idna, expand: Expansion, x: string) {
    forall y, h :: Stable(idna, y) && AcceptsLiterally(idna, expand, x, h) && AcceptsLiterally(idna, expand, y, h)
                   ==> HostsOverlap(idna, x, y)
  }

  /** x has root dots, and one more label would still fit a name; or it ends in a wildcard label
      after a dot. */
  predicate MayHide(idna: Idna, x: string) {
    var labels := SplitDots(NormalizeHost(idna, x));
    (RootDots(x) > 0 && |labels| <= 126) || (|labels| >= 2 && labels[|labels| - 1] == "*")
  }

  lemma AtMost127Labels(idna: Idna, x: string)
    requires Modelled(idna, x)
    ensures |SplitDots(NormalizeHost(idna, x))| <= 127
  {
    ModelledIsShaped(idna, x);
    JoinUndoesSplit(NormalizeHost(idna, x));
    NameIsPlain(SplitDots(NormalizeHost(idna, x)));
  }

  lemma OthersHideNothing(idna: Idna, expand: Expansion, x: string, y: string, h: string)
    requires Modelled(idna, x) && !MayHide(idna, x) && Stable(idna, y)
    requires AcceptsLiterally(idna, expand, x, h) && AcceptsLiterally(idna, expand, y, h)
    ensures HostsOverlap(idna, x, y)
  {
    if Modelled(idna, y) && !HostsOverlap(idna, x, y) {
      MissedIsHidden(idna, expand, x, y, h);
      AtMost127Labels(idna, x);
      AtMost127Labels(idna, y);
      ModelledIsShaped(idna, y);
      assert false;
    }
  }

  function Stars(n: nat): seq<string> {
    Copies("*", n)
  }

  lemma {:induction false} StarsLength(n: nat)
    requires n > 0
    ensures |JoinDots(Stars(n))| == 2 * n - 1
    decreases n
  {
    if n > 1 {
      StarsLength(n - 1);
      assert Stars(n)[1..] == Stars(n - 1);
    }
  }

  lemma StarsAreNormal(idna: Idna, n: nat)
    requires LabelByLabel(idna) && 0 < n <= 127
    ensures Shaped(Stars(n)) && |JoinDots(Stars(n))| <= 253 && InNormalForm(idna, JoinDots(Stars(n)))
  {
    StarsLength(n);
  }

  lemma StarsAreHidden(a: seq<string>, k: nat)
    requires k > 0
    ensures Hidden(a, k, Stars(|a| + 1), k - 1)
  {
  }

  /** A matcher with root dots is missed by one of wildcards only. */
  lemma DottedIsMissed(idna: Idna, x: string) returns (y: string)
    requires LabelByLabel(idna) && Modelled(idna, x)
    requires RootDots(x) > 0 && |SplitDots(NormalizeHost(idna, x))| <= 126
    ensures Modelled(idna, y) && HiddenPair(idna, x, y)
  {
    var a := SplitDots(NormalizeHost(idna, x));
    var b := Stars(|a| + 1);
    StarsAreNormal(idna, |a| + 1);
    y := JoinDots(b) + Dots(RootDots(x) - 1);
    DottedName(idna, b, RootDots(x) - 1);
    NameSplits(b);
    StarsAreHidden(a, RootDots(x));
  }

  lemma FrontIsNormal(idna: Idna, a: seq<string>)
    requires LabelByLabel(idna) && Shaped(a) && |a| >= 2 && |JoinDots(a)| <= 253 && InNormalForm(idna, JoinDots(a))
    ensures var b := a[..|a| - 1]; Shaped(b) && |JoinDots(b)| <= 253 && InNormalForm(idna, JoinDots(b))
  {
    FrontIsShorter(a);
    var b := a[..|a| - 1];
    assert forall i :: 0 <= i < |b| ==> b[i] == a[i];
  }

  lemma FrontIsHidden(a: seq<string>, k: nat)
    requires |a| >= 2 && a[|a| - 1] == "*"
    ensures Hidden(a, k, a[..|a| - 1], k + 1)
  {
  }

  /** A matcher that ends in a wildcard label is missed by one without it and one more dot. */
  lemma StarredIsMissed(idna: Idna, x: string) returns (y: string)
    requires LabelByLabel(idna) && Modelled(idna, x)
    requires var labels := SplitDots(NormalizeHost(idna, x)); |labels| >= 2 && labels[|labels| - 1] == "*"
    ensures Modelled(idna, y) && HiddenPair(idna, x, y)
  {
    var a := SplitDots(NormalizeHost(idna, x));
    ModelledIsShaped(idna, x);
    JoinUndoesSplit(NormalizeHost(idna, x));
    FrontIsNormal(idna, a);
    var b := a[..|a| - 1];
    y := JoinDots(b) + Dots(RootDots(x) + 1);
    DottedName(idna, b, RootDots(x) + 1);
    NameSplits(b);
    FrontIsHidden(a, RootDots(x));
  }

  lemma {:induction false} FrontIsShorter(a: seq<string>)
    requires |a| >= 2
    ensures |JoinDots(a[..|a| - 1])| <= |JoinDots(a)|
    decreases |a|
  {
    var front := a[..|a| - 1];
    if |a| > 2 {
      FrontIsShorter(a[1..]);
      assert front[1..] == a[1..][..|a| - 2];
    }
  }

  /** For every matcher the test can reason about: it misses none of its overlaps exactly when the
      matcher has no root dot (or is too long for one more label) and does not end in a wildcard
      label after a dot. */
  lemma HidesNothingExactly(idna: Idna, expand: Expansion, x: string)
    requires LabelByLabel(idna) && Modelled(idna, x)
    ensures HidesNothing(idna, expand, x) <==> !MayHide(idna, x)
  {
    if !MayHide(idna, x) {
      forall y, h | Stable(idna, y) && AcceptsLiterally(idna, expand, x, h) && AcceptsLiterally(idna, expand, y, h)
        ensures HostsOverlap(idna, x, y)
      {
        OthersHideNothing(idna, expand, x, y, h);
      }
    } else {
      var y;
      if RootDots(x) > 0 && |SplitDots(NormalizeHost(idna, x))| <= 126 {
        y := DottedIsMissed(idna, x);
      } else {
        y := StarredIsMissed(idna, x);
      }
      HiddenIsMissed(idna, expand, x, y);
    }
  }

  lemma ShortNames(idna: Idna)
    requires LabelByLabel(idna) && InNormalForm(idna, "a")
    ensures JoinDots(["a"]) == "a" && InNormalForm(idna, JoinDots(["a"]))
    ensures JoinDots(["a", "*"]) == "a.*" && InNormalForm(idna, JoinDots(["a", "*"]))
    ensures JoinDots(["a"]) + Dots(1) == "a." && JoinDots(["a", "*"]) + Dots(0) == "a.*"
  {
    var y := ["a", "*"];
    assert y[1..] == ["*"] && "a" + ("." + "*") == "a.*";
    assert JoinDots(y) == "a" + ("." + "*");
  }

  /** The shortest case: "a." and "a.*" both accept the name "a.", and the test says no. */
  lemma RootDotHidesOverlap(idna: Idna, expand: Expansion)
    requires LabelByLabel(idna) && InNormalForm(idna, "a")
    ensures Modelled(idna, "a.") && Modelled(idna, "a.*") && HiddenPair(idna, "a.", "a.*")
    ensures !HostsOverlap(idna, "a.", "a.*")
    ensures AcceptsLiterally(idna, expand, "a.", "a.") && AcceptsLiterally(idna, expand, "a.*", "a.")
  {
    ShortNames(idna);
    DottedName(idna, ["a"], 1);
    DottedName(idna, ["a", "*"], 0);
    NameSplits(["a"]);
    NameSplits(["a", "*"]);
    TextHasThoseLabels("a", 1);
    ShortLabels();
    HiddenIsMissed(idna, expand, "a.", "a.*");
  }

  lemma ShortLabels()
    ensures Hidden(["a"], 1, ["a", "*"], 0)
    ensures LabelsAccept(["a"] + Empties(1), ["a"] + Empties(1))
    ensures LabelsAccept(["a", "*"] + Empties(0), ["a"] + Empties(1))
  {
  }

  /** IDNA conversion that changes nothing is such a conversion. */
  lemma IdentityIsLabelByLabel()
    ensures LabelByLabel(x => Some(x))
  {
    var idna: Idna := x => Some(x);
    forall ls | Shaped(ls) ensures InNormalForm(idna, JoinDots(ls)) {
      PlainIsNormal(ls);
    }
    assert JoinDots(["*"]) == "*";
    forall ls, i | Shaped(ls) && 0 <= i < |ls| ensures InNormalForm(idna, ls[i]) {
      assert Shaped([ls[i]]) && JoinDots([ls[i]]) == ls[i];
    }
  }

  lemma PlainIsNormal(ls: seq<string>)
    requires Shaped(ls)
    ensures NormalizeHost(x => Some(x), JoinDots(ls)) == JoinDots(ls)
  {
    var n := JoinDots(ls);
    NameEnds(ls);
    NameIsPlain(ls);
    PlainNeedsNoTrim(n);
    assert ToLower(n) == n;
    StripsDots(n, 0);
    assert n + Dots(0) == n;
  }
}
