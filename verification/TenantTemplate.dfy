/**
  Screening and neutralising of Caddy placeholders in tenant-supplied strings
  (internal/caddyapi/tenanttemplate.go).

  The reference definition tests every position on its own: a placeholder starts at an
  unescaped '{' whose next brace is '}'. The scanner, which skips ahead and stops early, is
  proved to find exactly those.
 */
module TenantTemplate {
  import opened Strings

  const NAMESPACE := "http.request."

  predicate AllowedPlaceholder(key: string) {
    NAMESPACE <= key && |key| > |NAMESPACE|
  }

  // ---------------------------------------------------------------- reference definition

  predicate IsBrace(c: char) {
    c == '{' || c == '}'
  }

  /** The text before the first brace, and that brace if there is one. */
  function BeforeBrace(s: string): (b: string)
    ensures b <= s
  {
    if s == "" || IsBrace(s[0]) then "" else [s[0]] + BeforeBrace(s[1..])
  }

  datatype Brace = NoBrace | Opening | Closing

  function FirstBrace(s: string): Brace {
    if s == "" then NoBrace
    else if s[0] == '{' then Opening
    else if s[0] == '}' then Closing
    else FirstBrace(s[1..])
  }

  /** The text before the first ':', which separates a default value. */
  function BeforeColon(s: string): string {
    if s == "" || s[0] == ':' then "" else [s[0]] + BeforeColon(s[1..])
  }

  /** A placeholder starts at the head of s; escaped says a backslash precedes it. */
  predicate StartsHere(escaped: bool, s: string) {
    s != "" && s[0] == '{' && !escaped && FirstBrace(s[1..]).Closing?
  }

  /** The text between the braces of the placeholder that starts s, and the key it names. */
  function BodyHere(s: string): string
    requires s != ""
  {
    BeforeBrace(s[1..])
  }

  function KeyHere(s: string): string
    requires s != ""
  {
    KeyOf(BodyHere(s))
  }

  function KeyOf(text: string): string {
    TrimSpace(BeforeColon(text))
  }

  datatype Span = Span(start: nat, key: string)

  /** Every placeholder of s, each position tested on its own; off is the index of s[0]. */
  function Spans(escaped: bool, s: string, off: nat): seq<Span>
    decreases |s|
  {
    if s == "" then []
    else
      (if StartsHere(escaped, s) then [Span(off, KeyHere(s))] else [])
      + Spans(s[0] == '\\', s[1..], off + 1)
  }

  /** The placeholders Caddy would expand, in order, each as the text between its braces. */
  function Bodies(escaped: bool, s: string): seq<string>
    decreases |s|
  {
    if s == "" then []
    else (if StartsHere(escaped, s) then [BodyHere(s)] else []) + Bodies(s[0] == '\\', s[1..])
  }

  predicate AllowedBody(body: string) {
    AllowedPlaceholder(KeyOf(body))
  }

  function AllowedOnly(bodies: seq<string>): seq<string> {
    if bodies == [] then []
    else (if AllowedBody(bodies[0]) then [bodies[0]] else []) + AllowedOnly(bodies[1..])
  }

  predicate BlockedHere(escaped: bool, s: string) {
    StartsHere(escaped, s) && !AllowedPlaceholder(KeyHere(s))
  }

  /** s with a backslash put before every placeholder that is not allowed. */
  function Neutral(escaped: bool, s: string): string
    decreases |s|
  {
    if s == "" then ""
    else (if BlockedHere(escaped, s) then ['\\', s[0]] else [s[0]]) + Neutral(s[0] == '\\', s[1..])
  }

  /** t is s with backslashes inserted, each directly before a '{' of s. */
  predicate OnlyBackslashesInserted(s: string, t: string)
    decreases |t|
  {
    if t == "" then s == ""
    else
      || (s != "" && t[0] == s[0] && OnlyBackslashesInserted(s[1..], t[1..]))
      || (s != "" && |t| >= 2 && t[0] == '\\' && t[1] == s[0] == '{' && OnlyBackslashesInserted(s[1..], t[2..]))
  }

  // ---------------------------------------------------------------- what Neutral does

  lemma {:induction false} InsertsOnlyBackslashes(escaped: bool, s: string)
    ensures OnlyBackslashesInserted(s, Neutral(escaped, s))
    decreases |s|
  {
    if s != "" {
      InsertsOnlyBackslashes(s[0] == '\\', s[1..]);
      var t := Neutral(escaped, s);
      if BlockedHere(escaped, s) {
        assert t[2..] == Neutral(s[0] == '\\', s[1..]);
      } else {
        assert t[1..] == Neutral(s[0] == '\\', s[1..]);
      }
    }
  }

  /** The first brace of a string is kept, and so is the text before a closing one. */
  lemma {:induction false} FirstBraceKept(escaped: bool, s: string)
    ensures FirstBrace(Neutral(escaped, s)) == FirstBrace(s)
    ensures FirstBrace(s).Closing? ==> BeforeBrace(Neutral(escaped, s)) == BeforeBrace(s)
    decreases |s|
  {
    if s != "" {
      var t := Neutral(escaped, s);
      if BlockedHere(escaped, s) {
        assert t[1] == '{' && FirstBrace(t[1..]) == Opening;
      } else {
        assert t[1..] == Neutral(s[0] == '\\', s[1..]);
        FirstBraceKept(s[0] == '\\', s[1..]);
      }
    }
  }

  /** A position of s that is not blocked reads the same in the output. */
  lemma HeadKept(escaped: bool, s: string)
    requires s != "" && !BlockedHere(escaped, s)
    ensures var t := Neutral(escaped, s);
            t != "" && StartsHere(escaped, t) == StartsHere(escaped, s)
            && (StartsHere(escaped, s) ==> BodyHere(t) == BodyHere(s))
  {
    var t := Neutral(escaped, s);
    assert t[1..] == Neutral(s[0] == '\\', s[1..]);
    FirstBraceKept(s[0] == '\\', s[1..]);
  }

  /** Exactly the allowed placeholders survive, in order and with their text. */
  lemma {:induction false} KeepsExactlyTheAllowed(escaped: bool, s: string)
    ensures Bodies(escaped, Neutral(escaped, s)) == AllowedOnly(Bodies(escaped, s))
    decreases |s|
  {
    if s != "" {
      var rest := Neutral(s[0] == '\\', s[1..]);
      KeepsExactlyTheAllowed(s[0] == '\\', s[1..]);
      var t := Neutral(escaped, s);
      if BlockedHere(escaped, s) {
        assert t[1..] == ['{'] + rest && t[1..][1..] == rest;
        assert Bodies(true, t[1..]) == Bodies(false, rest);
        assert Bodies(escaped, t) == Bodies(true, t[1..]);
      } else {
        HeadKept(escaped, s);
        assert t[1..] == rest;
      }
      if StartsHere(escaped, s) {
        AllowedOnlyCons(BodyHere(s), Bodies(s[0] == '\\', s[1..]));
      } else {
        assert Bodies(escaped, s) == Bodies(s[0] == '\\', s[1..]);
        assert Bodies(escaped, t) == Bodies(s[0] == '\\', rest);
      }
    }
  }

  lemma AllowedOnlyCons(body: string, bodies: seq<string>)
    ensures AllowedOnly([body] + bodies) == (if AllowedBody(body) then [body] else []) + AllowedOnly(bodies)
  {
    assert ([body] + bodies)[1..] == bodies;
  }

  predicate AllAllowed(bodies: seq<string>) {
    forall i :: 0 <= i < |bodies| ==> AllowedBody(bodies[i])
  }

  lemma {:induction false} NoBraceNoBody(escaped: bool, s: string)
    requires '{' !in s
    ensures Bodies(escaped, s) == []
    decreases |s|
  {
    if s != "" {
      NoBraceNoBody(s[0] == '\\', s[1..]);
    }
  }

  lemma {:induction false} ClosedBody(text: string, after: string)
    requires '{' !in text && '}' !in text
    ensures FirstBrace(text + ("}" + after)).Closing? && BeforeBrace(text + ("}" + after)) == text
    decreases |text|
  {
    var s := text + ("}" + after);
    if text == "" {
      assert s == "}" + after;
    } else {
      assert s[0] == text[0] && s[1..] == text[1..] + ("}" + after);
      ClosedBody(text[1..], after);
    }
  }

  lemma {:induction false} ColonEndsKey(key: string, default: string)
    requires ':' !in key && (default == "" || default[0] == ':')
    ensures BeforeColon(key + default) == key
    decreases |key|
  {
    if key == "" {
      assert key + default == default;
    } else {
      assert (key + default)[1..] == key[1..] + default;
      ColonEndsKey(key[1..], default);
    }
  }

  /** Where a placeholder stands alone between text without an opening brace: it is the one body. */
  lemma {:induction false} LoneBody(escaped: bool, before: string, text: string, after: string)
    requires '{' !in before && '{' !in text && '}' !in text && '{' !in after
    requires before == "" ==> !escaped
    requires before != "" ==> before[|before| - 1] != '\\'
    ensures Bodies(escaped, before + ("{" + (text + ("}" + after)))) == [text]
    decreases |before|
  {
    var run := text + ("}" + after);
    var s := before + ("{" + run);
    if before == "" {
      assert s == "{" + run && s[1..] == run;
      ClosedBody(text, after);
      NoBraceNoBody(false, run);
    } else {
      assert s[0] == before[0] && s[1..] == before[1..] + ("{" + run);
      LoneBody(s[0] == '\\', before[1..], text, after);
    }
  }

  lemma RequestNames(key: string)
    ensures AllowedPlaceholder(key) <==> exists name: string :: name != "" && key == "http.request." + name
  {
    if AllowedPlaceholder(key) {
      assert key == "http.request." + key[13..];
    }
  }

  /** A text with one placeholder, wherever it stands and with or without a default, passes the screen
      exactly when the trimmed name before the colon is of the form http.request.X. */
  lemma OnlyRequestNamesPass(before: string, key: string, default: string, after: string)
    requires '{' !in before && (before == "" || before[|before| - 1] != '\\') && '{' !in after
    requires ':' !in key && (default == "" || default[0] == ':')
    requires forall c :: c in key + default ==> c != '{' && c != '}'
    ensures AllAllowed(Bodies(false, before + ("{" + (key + default + ("}" + after)))))
            <==> exists name: string :: name != "" && TrimSpace(key) == "http.request." + name
  {
    var text := key + default;
    LoneBody(false, before, text, after);
    ColonEndsKey(key, default);
    RequestNames(TrimSpace(key));
    assert AllAllowed([text]) <==> AllowedBody([text][0]);
  }

  lemma {:induction false} AllowedOnlyPasses(bodies: seq<string>)
    ensures AllAllowed(AllowedOnly(bodies))
  {
    if bodies != [] {
      AllowedOnlyPasses(bodies[1..]);
    }
  }

  /** A string with nothing to block is returned as it is. */
  lemma {:induction false} PassingIsFixed(escaped: bool, s: string)
    requires AllAllowed(Bodies(escaped, s))
    ensures Neutral(escaped, s) == s
    decreases |s|
  {
    if s != "" {
      var here := if StartsHere(escaped, s) then [BodyHere(s)] else [];
      var later := Bodies(s[0] == '\\', s[1..]);
      assert Bodies(escaped, s) == here + later;
      assert StartsHere(escaped, s) ==> Bodies(escaped, s)[0] == BodyHere(s);
      assert forall i :: 0 <= i < |later| ==> later[i] == Bodies(escaped, s)[|here| + i];
      PassingIsFixed(s[0] == '\\', s[1..]);
    }
  }

  /** The whole statement: the output passes the screen, holds exactly the allowed placeholders,
      differs only by inserted backslashes, is a fixed point, and equals a passing input. */
  lemma NeutralIsSafe(s: string)
    ensures var t := Neutral(false, s);
            && AllAllowed(Bodies(false, t))
            && Bodies(false, t) == AllowedOnly(Bodies(false, s))
            && OnlyBackslashesInserted(s, t)
            && Neutral(false, t) == t
            && (AllAllowed(Bodies(false, s)) ==> t == s)
  {
    KeepsExactlyTheAllowed(false, s);
    AllowedOnlyPasses(Bodies(false, s));
    InsertsOnlyBackslashes(false, s);
    PassingIsFixed(false, Neutral(false, s));
    if AllAllowed(Bodies(false, s)) {
      PassingIsFixed(false, s);
    }
  }

  // ---------------------------------------------------------------- the scanner

  predicate EscapedAt(s: string, i: nat)
    requires i <= |s|
  {
    i > 0 && s[i - 1] == '\\'
  }

  lemma {:induction false} BraceAfterText(s: string)
    ensures var n := |BeforeBrace(s)|;
            if n == |s| then FirstBrace(s).NoBrace?
            else IsBrace(s[n]) && FirstBrace(s) == if s[n] == '{' then Opening else Closing
  {
    if s != "" && !IsBrace(s[0]) {
      BraceAfterText(s[1..]);
    }
  }

  lemma {:induction false} TextHasNoOpening(s: string)
    ensures forall j :: 0 <= j < |BeforeBrace(s)| ==> s[j] != '{'
  {
    if s != "" && !IsBrace(s[0]) {
      TextHasNoOpening(s[1..]);
    }
  }

  /** Skipping a stretch without '{' skips no placeholder. */
  lemma {:induction false} SkipPlain(escaped: bool, s: string, off: nat, k: nat)
    requires k <= |s| && forall j :: 0 <= j < k ==> s[j] != '{'
    ensures Spans(escaped, s, off) == Spans(if k == 0 then escaped else s[k - 1] == '\\', s[k..], off + k)
    decreases |s|
  {
    if k == 0 {
      assert s[0..] == s;
    } else {
      SkipPlain(s[0] == '\\', s[1..], off + 1, k - 1);
      assert s[1..][k - 1..] == s[k..];
    }
  }

  /** The placeholders from index i on. */
  function SpansFrom(s: string, i: nat): seq<Span>
    requires i <= |s|
  {
    Spans(EscapedAt(s, i), s[i..], i)
  }

  /** What one turn of the scanner finds at i, and where it goes on. */
  method ScanAt(s: string, i: nat) returns (found: seq<Span>, next: nat, done: bool)
    requires i < |s|
    ensures i < next <= |s| && SpansFrom(s, i) == found + SpansFrom(s, next)
    ensures done ==> SpansFrom(s, next) == []
  {
    found, next, done := [], i + 1, false;
    if s[i] != '{' || (i > 0 && s[i - 1] == '\\') {
      NoSpanHere(s, i);
      return;
    }
    var rel := IndexBrace(s, i + 1);
    if rel < 0 {
      NothingMore(s, i);
      done := true;
    } else if s[i + 1 + rel] == '{' {
      NoSpanHere(s, i);
    } else {
      SkipPlaceholder(s, i, rel);
      found, next := [Span(i, KeyOf(s[i + 1..i + 1 + rel]))], i + rel + 2;
    }
  }

  /** scanPlaceholderSpans: one pass with an index, skipping each placeholder it has found and
      stopping at a '{' that no brace follows. */
  method ScanPlaceholderSpans(s: string) returns (out: seq<Span>)
    ensures out == Spans(false, s, 0)
  {
    out := [];
    var i, done := 0, false;
    ghost var all := SpansFrom(s, 0);
    assert s[0..] == s;
    while i < |s| && !done
      invariant 0 <= i <= |s|
      invariant out + SpansFrom(s, i) == all
      invariant done ==> SpansFrom(s, i) == []
    {
      var found, next, stop := ScanAt(s, i);
      out, i, done := out + found, next, stop;
    }
  }

  /** strings.IndexAny(s[from:], "{}"). */
  method IndexBrace(s: string, from: nat) returns (rel: int)
    requires from <= |s|
    ensures rel < 0 <==> FirstBrace(s[from..]).NoBrace?
    ensures rel >= 0 ==>
              && from + rel < |s| && s[from..from + rel] == BeforeBrace(s[from..])
              && (s[from + rel] == '{' <==> FirstBrace(s[from..]).Opening?)
  {
    rel := |BeforeBrace(s[from..])|;
    BraceAfterText(s[from..]);
    assert s[from..][..rel] == s[from..from + rel];
    if from + rel == |s| {
      rel := -1;
    }
  }

  lemma NoSpanHere(s: string, i: nat)
    requires i < |s| && (s[i] != '{' || EscapedAt(s, i) || !FirstBrace(s[i + 1..]).Closing?)
    ensures SpansFrom(s, i) == SpansFrom(s, i + 1)
  {
    assert s[i..][1..] == s[i + 1..];
  }

  lemma NothingMore(s: string, i: nat)
    requires i < |s| && FirstBrace(s[i + 1..]).NoBrace?
    ensures SpansFrom(s, i) == [] && SpansFrom(s, i + 1) == []
  {
    var rest := s[i + 1..];
    assert s[i..][1..] == rest;
    BraceAfterText(rest);
    TextHasNoOpening(rest);
    SkipPlain(s[i] == '\\', rest, i + 1, |rest|);
  }

  lemma SkipPlaceholder(s: string, i: nat, rel: nat)
    requires i + 1 + rel < |s| && s[i] == '{' && !EscapedAt(s, i)
    requires FirstBrace(s[i + 1..]).Closing? && s[i + 1..i + 1 + rel] == BeforeBrace(s[i + 1..])
    ensures SpansFrom(s, i) == [Span(i, KeyOf(s[i + 1..i + 1 + rel]))] + SpansFrom(s, i + rel + 2)
  {
    var rest := s[i + 1..];
    assert s[i..][1..] == rest;
    BraceAfterText(rest);
    TextHasNoOpening(rest);
    SkipPlain(false, rest, i + 1, rel + 1);
    assert rest[rel + 1..] == s[i + rel + 2..];
  }

  lemma {:induction false} BodiesOfSpans(escaped: bool, s: string, off: nat)
    ensures |Spans(escaped, s, off)| == |Bodies(escaped, s)|
    ensures forall i :: 0 <= i < |Spans(escaped, s, off)| ==>
              Spans(escaped, s, off)[i].key == KeyOf(Bodies(escaped, s)[i])
    decreases |s|
  {
    if s != "" {
      BodiesOfSpans(s[0] == '\\', s[1..], off + 1);
      var here := if StartsHere(escaped, s) then [Span(off, KeyHere(s))] else [];
      assert Spans(escaped, s, off) == here + Spans(s[0] == '\\', s[1..], off + 1);
    }
  }

  /** ScreenTenantTemplate: passes exactly the strings whose placeholders are all allowed. */
  method ScreenTenantTemplate(s: string) returns (ok: bool)
    ensures ok <==> AllAllowed(Bodies(false, s))
  {
    var spans := ScanPlaceholderSpans(s);
    BodiesOfSpans(false, s, 0);
    for i := 0 to |spans|
      invariant forall k :: 0 <= k < i ==> AllowedPlaceholder(spans[k].key)
    {
      if !AllowedPlaceholder(spans[i].key) {
        return false;
      }
    }
    return true;
  }

  function EscapedAfter(escaped: bool, s: string, n: nat): bool
    requires n <= |s|
  {
    if n == 0 then escaped else s[n - 1] == '\\'
  }

  /** The first placeholder of a string, found by walking to it. */
  lemma {:induction false} FirstSpan(escaped: bool, s: string, off: nat) returns (n: nat)
    requires Spans(escaped, s, off) != []
    ensures n < |s| && Spans(escaped, s, off)[0] == Span(off + n, KeyHere(s[n..]))
    ensures StartsHere(EscapedAfter(escaped, s, n), s[n..])
    ensures Spans(escaped, s, off)[1..] == Spans(false, s[n + 1..], off + n + 1)
    decreases |s|
  {
    if StartsHere(escaped, s) {
      n := 0;
      assert s[0..] == s;
      assert Spans(escaped, s, off) == [Span(off, KeyHere(s))] + Spans(false, s[1..], off + 1);
    } else {
      assert Spans(escaped, s, off) == Spans(s[0] == '\\', s[1..], off + 1);
      var m := FirstSpan(s[0] == '\\', s[1..], off + 1);
      n := m + 1;
      assert s[1..][m..] == s[n..] && s[1..][m + 1..] == s[n + 1..];
    }
  }

  /** Up to its first placeholder a string is copied. */
  lemma {:induction false} CopyUntilSpan(escaped: bool, s: string, off: nat, n: nat)
    requires Spans(escaped, s, off) != [] && Spans(escaped, s, off)[0].start == off + n && n < |s|
    ensures Neutral(escaped, s) == s[..n] + Neutral(EscapedAfter(escaped, s, n), s[n..])
    decreases |s|
  {
    if StartsHere(escaped, s) {
      assert s[0..] == s;
    } else {
      var e, rest, m := s[0] == '\\', s[1..], n - 1;
      assert Spans(escaped, s, off) == Spans(e, rest, off + 1);
      var first := FirstSpan(e, rest, off + 1);
      CopyUntilSpan(e, rest, off + 1, m);
      SpliceHead(s, m, Neutral(EscapedAfter(e, rest, m), s[n..]));
      assert rest[m..] == s[n..];
    }
  }

  lemma SpliceHead(s: string, m: nat, t: string)
    requires m < |s|
    ensures [s[0]] + (s[1..][..m] + t) == s[..m + 1] + t
  {
    assert s[..m + 1] == [s[0]] + s[1..][..m];
  }

  /** One placeholder met by the neutraliser: what is written and what is left to do. */
  lemma NeutralAtSpan(escaped: bool, s: string)
    requires StartsHere(escaped, s)
    ensures Neutral(escaped, s)
            == (if AllowedPlaceholder(KeyHere(s)) then "{" else "\\{") + Neutral(false, s[1..])
  {
  }

  lemma {:induction false} NoSpansNoChange(escaped: bool, s: string, off: nat)
    requires Spans(escaped, s, off) == []
    ensures Neutral(escaped, s) == s
    decreases |s|
  {
    if s != "" {
      NoSpansNoChange(s[0] == '\\', s[1..], off + 1);
    }
  }

  /** The text that NeutralizeTenantTemplate still has to write from q on. */
  function NeutralFrom(s: string, q: nat): string
    requires q <= |s|
  {
    Neutral(EscapedAt(s, q), s[q..])
  }

  /** What has to be written for the first placeholder from q on, up to and including its '{'. */
  lemma NeutralStep(s: string, q: nat)
    requires q <= |s| && SpansFrom(s, q) != []
    ensures var sp := SpansFrom(s, q)[0];
            && q <= sp.start < |s|
            && SpansFrom(s, q)[1..] == SpansFrom(s, sp.start + 1)
            && s[sp.start] == '{'
            && NeutralFrom(s, q)
               == s[q..sp.start] + ((if AllowedPlaceholder(sp.key) then "{" else "\\{") + NeutralFrom(s, sp.start + 1))
  {
    var tail, e := s[q..], EscapedAt(s, q);
    var n := FirstSpan(e, tail, q);
    CopyUntilSpan(e, tail, q, n);
    assert tail[n..] == s[q + n..] && tail[n + 1..] == s[q + n + 1..] && s[q + n..][1..] == s[q + n + 1..];
    NeutralAtSpan(EscapedAfter(e, tail, n), tail[n..]);
    assert tail[..n] == s[q..q + n];
  }

  lemma SpliceAllowed(s: string, b: string, prev: nat, q: nat, at: nat, rest: string)
    requires prev <= q <= at < |s| && s[at] == '{'
    ensures b + s[prev..q] + (s[q..at] + ("{" + rest)) == b + s[prev..at + 1] + rest
  {
    assert s[prev..at + 1] == s[prev..q] + s[q..at] + "{";
  }

  lemma SpliceBlocked(s: string, b: string, prev: nat, q: nat, at: nat, rest: string)
    requires prev <= q <= at < |s| && s[at] == '{'
    ensures b + s[prev..q] + (s[q..at] + ("\\{" + rest)) == (b + s[prev..at] + ['\\']) + s[at..at + 1] + rest
  {
    assert s[prev..at] == s[prev..q] + s[q..at];
    assert s[at..at + 1] == "{";
    assert "\\{" == ['\\'] + "{";
  }

  lemma SpliceTail(s: string, b: string, prev: nat, q: nat)
    requires prev <= q <= |s|
    ensures b + s[prev..q] + s[q..] == b + s[prev..]
  {
    assert s[prev..q] + s[q..] == s[prev..];
  }

  /** What is written or pending so far, followed by what the rest of s still needs. */
  function Outlook(s: string, b: string, prev: nat, q: nat): string
    requires prev <= q <= |s|
  {
    b + s[prev..q] + NeutralFrom(s, q)
  }

  /** One turn of the loop: the pending text s[prev..q] grows, or is flushed with a backslash. */
  method NeutralizeAt(s: string, sp: Span, b: string, prev: nat, ghost q: nat) returns (b': string, prev': nat)
    requires prev <= q <= |s| && SpansFrom(s, q) != [] && sp == SpansFrom(s, q)[0]
    ensures q <= sp.start < |s| && prev' <= sp.start + 1
    ensures SpansFrom(s, q)[1..] == SpansFrom(s, sp.start + 1)
    ensures Outlook(s, b', prev', sp.start + 1) == Outlook(s, b, prev, q)
    ensures AllowedPlaceholder(sp.key) ==> b' == b && prev' == prev
  {
    NeutralStep(s, q);
    if AllowedPlaceholder(sp.key) {
      SpliceAllowed(s, b, prev, q, sp.start, NeutralFrom(s, sp.start + 1));
      return b, prev;
    }
    SpliceBlocked(s, b, prev, q, sp.start, NeutralFrom(s, sp.start + 1));
    b' := b + s[prev..sp.start] + ['\\'];
    prev' := sp.start;
  }

  lemma NothingLeft(s: string, b: string, prev: nat, q: nat)
    requires prev <= q <= |s| && SpansFrom(s, q) == []
    ensures Outlook(s, b, prev, q) == b + s[prev..]
    ensures b == "" && prev == 0 ==> Outlook(s, b, prev, q) == s
  {
    NoSpansNoChange(EscapedAt(s, q), s[q..], q);
    SpliceTail(s, b, prev, q);
    assert "" + s[0..] == s;
  }

  lemma NothingYet(s: string)
    ensures Outlook(s, "", 0, 0) == Neutral(false, s) && SpansFrom(s, 0) == Spans(false, s, 0)
  {
    assert s[0..] == s;
  }

  /** NeutralizeTenantTemplate: copies between placeholders, a backslash before each blocked one. */
  method NeutralizeTenantTemplate(s: string) returns (t: string)
    ensures t == Neutral(false, s)
  {
    var spans := ScanPlaceholderSpans(s);
    NothingYet(s);
    ghost var whole := Neutral(false, s);
    var b, prev, escaped := "", 0, false;
    ghost var q := 0;
    while spans != []
      invariant 0 <= prev <= q <= |s|
      invariant spans == SpansFrom(s, q)
      invariant Outlook(s, b, prev, q) == whole
      invariant !escaped ==> b == "" && prev == 0
      decreases |spans|
    {
      var sp := spans[0];
      b, prev := NeutralizeAt(s, sp, b, prev, q);
      escaped := escaped || !AllowedPlaceholder(sp.key);
      q := sp.start + 1;
      spans := spans[1..];
    }
    NothingLeft(s, b, prev, q);
    t := if escaped then b + s[prev..] else s;
  }
}
