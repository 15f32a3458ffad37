/**
  Host matchers (internal/caddyapi/routeorder.go): normalisation, the shapes the overlap test can
  reason about, and the overlap test itself, against the meaning of a matcher as the set of request
  hosts it accepts.

  IDNA conversion is a parameter; nothing is assumed about it. A matcher stands for its normalised
  form. One whose normalised form has a valid shape accepts a host label by label, "*" standing for
  any one label; what any other matcher accepts (placeholders, ports, partial wildcards) is decided
  at request time and is a parameter too.
 */
module HostMatch {
  import opened Wrappers
  import opened Strings

  type Idna = string -> Option<string>
  type Expansion = (string, string) -> bool

  function StripRootDots(h: string): string {
    if |h| > 1 && h[|h| - 1] == '.' then StripRootDots(h[..|h| - 1]) else h
  }

  function NormalizeHost(idna: Idna, h: string): string {
    var t := ToLower(TrimSpace(h));
    if t == "" then ""
    else
      var bare := StripRootDots(t);
      match idna(bare)
      case Some(ascii) => if ascii != "" then ToLower(ascii) else bare
      case None => bare
  }

  predicate Unmodelled(c: char) {
    c == '{' || c == '}' || c == ':' || c == '/' || c == ' ' || c == '\t' || c == '\r' || c == '\n'
  }

  predicate HasUnmodelled(h: string) {
    exists i :: 0 <= i < |h| && Unmodelled(h[i])
  }

  predicate LabelChar(c: char) {
    'a' <= c <= 'z' || '0' <= c <= '9' || c == '-' || c == '_'
  }

  predicate ValidLabel(l: string) {
    || l == "*"
    || (&& l != "" && |l| <= 63 && l[0] != '-' && l[|l| - 1] != '-'
        && forall i :: 0 <= i < |l| ==> LabelChar(l[i]))
  }

  predicate ValidHostMatcher(idna: Idna, h: string) {
    var raw := TrimSpace(h);
    && raw != "" && raw[0] != '.' && raw[|raw| - 1] != '.'
    && var n := NormalizeHost(idna, h);
       && n != "" && |n| <= 253 && !HasUnmodelled(n) && idna(n).Some?
       && forall i :: 0 <= i < |SplitDots(n)| ==> ValidLabel(SplitDots(n)[i])
  }

  predicate LabelsMeet(a: string, b: string) {
    a == "*" || b == "*" || EqualFold(a, b)
  }

  /** hostPatternsIntersect */
  predicate PatternsIntersect(a: string, b: string) {
    var la, lb := SplitDots(a), SplitDots(b);
    |la| == |lb| && forall i :: 0 <= i < |la| ==> LabelsMeet(la[i], lb[i])
  }

  predicate HostsOverlap(idna: Idna, x: string, y: string) {
    var a, b := NormalizeHost(idna, x), NormalizeHost(idna, y);
    || a == "" || b == ""
    || !ValidHostMatcher(idna, a) || !ValidHostMatcher(idna, b)
    || PatternsIntersect(a, b)
  }

  // ---------------------------------------------------------------- meaning

  predicate LabelAccepts(pattern: string, part: string) {
    pattern == "*" || EqualFold(pattern, part)
  }

  predicate LabelsAccept(pattern: seq<string>, host: seq<string>) {
    |pattern| == |host| && forall i :: 0 <= i < |pattern| ==> LabelAccepts(pattern[i], host[i])
  }

  /** The request hosts a matcher accepts. */
  predicate Accepts(idna: Idna, expand: Expansion, x: string, host: string) {
    var m := NormalizeHost(idna, x);
    if m == "" then true
    else if !ValidHostMatcher(idna, m) then expand(m, host)
    else LabelsAccept(SplitDots(m), SplitDots(host))
  }

  /** A name without wildcard labels. */
  predicate Concrete(host: string) {
    forall i :: 0 <= i < |SplitDots(host)| ==> SplitDots(host)[i] != "*"
  }

  /** A host both matchers accept, built label by label. */
  function Witness(la: seq<string>, lb: seq<string>): (w: seq<string>)
    requires |la| == |lb|
    ensures |w| == |la|
  {
    seq(|la|, i requires 0 <= i < |la| => if la[i] != "*" then la[i] else if lb[i] != "*" then lb[i] else "x")
  }

  // ---------------------------------------------------------------- results

  lemma OverlapIsSymmetric(idna: Idna, x: string, y: string)
    ensures HostsOverlap(idna, x, y) <==> HostsOverlap(idna, y, x)
  {
    var a, b := NormalizeHost(idna, x), NormalizeHost(idna, y);
    assert PatternsIntersect(a, b) ==> PatternsIntersect(b, a) by {
      IntersectFlips(a, b);
    }
    IntersectFlips(b, a);
  }

  lemma IntersectFlips(a: string, b: string)
    ensures PatternsIntersect(a, b) ==> PatternsIntersect(b, a)
  {
    if PatternsIntersect(a, b) {
      forall i | 0 <= i < |SplitDots(b)| ensures LabelsMeet(SplitDots(b)[i], SplitDots(a)[i]) {
        assert LabelsMeet(SplitDots(a)[i], SplitDots(b)[i]);
      }
    }
  }

  /** No real overlap is missed, whatever the two matchers are. */
  lemma OverlapMissesNothing(idna: Idna, expand: Expansion, x: string, y: string, host: string)
    requires Accepts(idna, expand, x, host) && Accepts(idna, expand, y, host)
    ensures HostsOverlap(idna, x, y)
  {
    var a, b := NormalizeHost(idna, x), NormalizeHost(idna, y);
    if a != "" && b != "" && ValidHostMatcher(idna, a) && ValidHostMatcher(idna, b) {
      var la, lb, lh := SplitDots(a), SplitDots(b), SplitDots(host);
      forall i | 0 <= i < |la| ensures LabelsMeet(la[i], lb[i]) {
        assert LabelAccepts(la[i], lh[i]) && LabelAccepts(lb[i], lh[i]);
      }
    }
  }

  lemma WitnessIsAccepted(a: string, b: string)
    requires PatternsIntersect(a, b)
    ensures var h := JoinDots(Witness(SplitDots(a), SplitDots(b)));
            Concrete(h) && LabelsAccept(SplitDots(a), SplitDots(h)) && LabelsAccept(SplitDots(b), SplitDots(h))
  {
    var la, lb := SplitDots(a), SplitDots(b);
    var w := Witness(la, lb);
    LabelsAreDotFree(a);
    LabelsAreDotFree(b);
    SplitUndoesJoin(w);
    forall i | 0 <= i < |w| ensures LabelAccepts(la[i], w[i]) && LabelAccepts(lb[i], w[i]) && w[i] != "*" {
      assert LabelsMeet(la[i], lb[i]);
      assert "x"[0] != "*"[0];
    }
  }

  /** For matchers of valid shape the test is exact: it answers yes exactly when some concrete host
      is accepted by both. */
  lemma OverlapIsExact(idna: Idna, expand: Expansion, x: string, y: string)
    requires ValidHostMatcher(idna, NormalizeHost(idna, x)) && ValidHostMatcher(idna, NormalizeHost(idna, y))
    ensures HostsOverlap(idna, x, y) <==>
            exists h :: Concrete(h) && Accepts(idna, expand, x, h) && Accepts(idna, expand, y, h)
  {
    var a, b := NormalizeHost(idna, x), NormalizeHost(idna, y);
    if HostsOverlap(idna, x, y) {
      BlankIsInvalid(idna);
      WitnessIsAccepted(a, b);
      var h := JoinDots(Witness(SplitDots(a), SplitDots(b)));
      assert Accepts(idna, expand, x, h) && Accepts(idna, expand, y, h);
    }
    if h :| Concrete(h) && Accepts(idna, expand, x, h) && Accepts(idna, expand, y, h) {
      OverlapMissesNothing(idna, expand, x, y, h);
    }
  }

  lemma BlankIsInvalid(idna: Idna)
    ensures !ValidHostMatcher(idna, "")
  {
  }

  /** A valid matcher that normalising leaves stable has a normalised form of valid shape. */
  lemma NormalisedIsValid(idna: Idna, x: string)
    requires ValidHostMatcher(idna, x)
    requires NormalizeHost(idna, NormalizeHost(idna, x)) == NormalizeHost(idna, x)
    ensures ValidHostMatcher(idna, NormalizeHost(idna, x))
  {
    var n := NormalizeHost(idna, x);
    Ends(n);
    var labels := SplitDots(n);
    assert ValidLabel(labels[0]) && ValidLabel(labels[|labels| - 1]);
  }

  /** The outer characters of a name are those of its outer labels. */
  lemma {:induction false} Ends(n: string)
    requires n != ""
    ensures var first := SplitDots(n)[0]; if first == "" then n[0] == '.' else n[0] == first[0]
    ensures var last := SplitDots(n)[|SplitDots(n)| - 1];
            if last == "" then n[|n| - 1] == '.' else n[|n| - 1] == last[|last| - 1]
    decreases |n|
  {
    if |n| > 1 {
      Ends(n[1..]);
    }
  }
}
