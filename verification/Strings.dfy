/** The string operations of Go's strings and strconv packages that the modules share. */
module Strings {
  import opened Wrappers

  /** unicode.IsSpace */
  predicate IsSpace(c: char) {
    || c == ' ' || '\t' <= c <= '\r' || c == '\U{85}' || c == '\U{A0}' || c == '\U{1680}'
    || '\U{2000}' <= c <= '\U{200A}' || c == '\U{2028}' || c == '\U{2029}' || c == '\U{202F}' || c == '\U{205F}'
    || c == '\U{3000}'
  }

  function TrimLeft(s: string): string {
    if s != "" && IsSpace(s[0]) then TrimLeft(s[1..]) else s
  }

  function TrimRight(s: string): string {
    if s != "" && IsSpace(s[|s| - 1]) then TrimRight(s[..|s| - 1]) else s
  }

  function TrimSpace(s: string): string {
    TrimRight(TrimLeft(s))
  }

  function LowerChar(c: char): char {
    if 'A' <= c <= 'Z' then c + 32 as char else c
  }

  /** ToLower on the ASCII letters. */
  function ToLower(s: string): (r: string)
    ensures |r| == |s|
  {
    seq(|s|, i requires 0 <= i < |s| => LowerChar(s[i]))
  }

  /** EqualFold on the ASCII letters. */
  predicate EqualFold(a: string, b: string) {
    ToLower(a) == ToLower(b)
  }

  // ---------------------------------------------------------------- dot-separated labels

  predicate DotFree(s: string) {
    forall i :: 0 <= i < |s| ==> s[i] != '.'
  }

  function SplitDots(s: string): (labels: seq<string>)
    ensures labels != []
  {
    if s == "" then [""]
    else if s[0] == '.' then [""] + SplitDots(s[1..])
    else
      var rest := SplitDots(s[1..]);
      [[s[0]] + rest[0]] + rest[1..]
  }

  function JoinDots(labels: seq<string>): string
    requires labels != []
  {
    if |labels| == 1 then labels[0] else labels[0] + ("." + JoinDots(labels[1..]))
  }

  lemma {:induction false} LabelsAreDotFree(s: string)
    ensures forall i :: 0 <= i < |SplitDots(s)| ==> DotFree(SplitDots(s)[i])
    decreases |s|
  {
    if s != "" {
      LabelsAreDotFree(s[1..]);
    }
  }

  lemma {:induction false} SplitsAfter(head: string, rest: string)
    requires DotFree(head)
    ensures SplitDots(head) == [head]
    ensures SplitDots(head + ("." + rest)) == [head] + SplitDots(rest)
    decreases |head|
  {
    var whole := head + ("." + rest);
    if head == "" {
      assert whole == "." + rest && whole[1..] == rest;
    } else {
      SplitsAfter(head[1..], rest);
      assert whole[1..] == head[1..] + ("." + rest);
      assert head == [head[0]] + head[1..];
    }
  }

  lemma {:induction false} SplitAtDot(s: string, t: string)
    ensures SplitDots(s + ("." + t)) == SplitDots(s) + SplitDots(t)
    decreases |s|
  {
    var whole := s + ("." + t);
    if s == "" {
      assert whole == "." + t && whole[1..] == t;
    } else {
      SplitAtDot(s[1..], t);
      assert whole[1..] == s[1..] + ("." + t);
      FirstGrows(s[0], SplitDots(s[1..]), SplitDots(t));
    }
  }

  lemma FirstGrows(c: char, xs: seq<string>, ys: seq<string>)
    requires xs != []
    ensures [""] + (xs + ys) == ([""] + xs) + ys
    ensures [[c] + (xs + ys)[0]] + (xs + ys)[1..] == ([[c] + xs[0]] + xs[1..]) + ys
  {
  }

  lemma {:induction false} SplitUndoesJoin(labels: seq<string>)
    requires labels != [] && forall i :: 0 <= i < |labels| ==> DotFree(labels[i])
    ensures SplitDots(JoinDots(labels)) == labels
    decreases |labels|
  {
    if |labels| == 1 {
      SplitsAfter(labels[0], "");
    } else {
      SplitUndoesJoin(labels[1..]);
      SplitsAfter(labels[0], JoinDots(labels[1..]));
    }
  }

  lemma {:induction false} JoinUndoesSplit(s: string)
    ensures JoinDots(SplitDots(s)) == s
    decreases |s|
  {
    if s != "" {
      JoinUndoesSplit(s[1..]);
      var rest := SplitDots(s[1..]);
      if s[0] == '.' {
        assert SplitDots(s)[1..] == rest;
        assert "" + ("." + s[1..]) == s;
      } else {
        FirstLabelGrows(s[0], rest);
        assert [s[0]] + s[1..] == s;
      }
    }
  }

  lemma FirstLabelGrows(c: char, labels: seq<string>)
    requires labels != []
    ensures JoinDots([[c] + labels[0]] + labels[1..]) == [c] + JoinDots(labels)
  {
    var grown := [[c] + labels[0]] + labels[1..];
    if |labels| > 1 {
      assert grown[1..] == labels[1..];
      var tail := "." + JoinDots(labels[1..]);
      assert ([c] + labels[0]) + tail == [c] + (labels[0] + tail);
    }
  }

  // ---------------------------------------------------------------- integers

  predicate IsDigit(c: char) {
    '0' <= c <= '9'
  }

  function Digit(d: nat): char
    requires d < 10
  {
    '0' + d as char
  }

  function Digits(n: nat): (s: string)
    ensures s != "" && forall i :: 0 <= i < |s| ==> IsDigit(s[i])
  {
    if n < 10 then [Digit(n)] else Digits(n / 10) + [Digit(n % 10)]
  }

  function DigitsValue(s: string): nat {
    if s == "" || !IsDigit(s[|s| - 1]) then 0
    else DigitsValue(s[..|s| - 1]) * 10 + (s[|s| - 1] - '0') as nat
  }

  lemma {:induction false} DigitsReadBack(n: nat)
    ensures DigitsValue(Digits(n)) == n
  {
    if n >= 10 {
      DigitsReadBack(n / 10);
      assert Digits(n)[..|Digits(n)| - 1] == Digits(n / 10);
    }
  }

  /** The decimal text of an integer, as %d writes it. */
  function IntText(n: int): string {
    if n < 0 then "-" + Digits(-n) else Digits(n)
  }

  predicate AllDigits(s: string) {
    s != "" && forall i :: 0 <= i < |s| ==> IsDigit(s[i])
  }

  /** strconv.Atoi without its range check: an optional sign, then digits. */
  function ParseInt(s: string): Option<int> {
    if AllDigits(s) then Some(DigitsValue(s))
    else if s != "" && s[0] == '+' && AllDigits(s[1..]) then Some(DigitsValue(s[1..]))
    else if s != "" && s[0] == '-' && AllDigits(s[1..]) then Some(-(DigitsValue(s[1..]) as int))
    else None
  }

  lemma ParsesIntText(n: int)
    ensures ParseInt(IntText(n)) == Some(n)
  {
    DigitsReadBack(if n < 0 then -n else n);
    if n < 0 {
      assert IntText(n)[1..] == Digits(-n);
    }
  }
}
