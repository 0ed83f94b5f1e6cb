/** The few Python string built-ins the chat loops rely on: `str.strip`, `str.lower`,
    `str.join`, and a count of "; " occurrences used to reason about joined text. */
module Strings {

  /** Python's `str.isspace` on one character: the ASCII controls tab to carriage return
      and 0x1C to 0x1F, the space, NEL, no-break space, and the Unicode space separators,
      line and paragraph separators. */
  predicate IsSpace(ch: char) {
    var n := ch as int;
    || 0x09 <= n <= 0x0D || 0x1C <= n <= 0x20 || n == 0x85 || n == 0xA0 || n == 0x1680
    || 0x2000 <= n <= 0x200A || n == 0x2028 || n == 0x2029 || n == 0x202F || n == 0x205F
    || n == 0x3000
  }

  predicate AllSpace(s: string) {
    forall i :: 0 <= i < |s| ==> IsSpace(s[i])
  }

  /** Number of white-space characters at the front of `s`. */
  function LeadingSpace(s: string): (n: nat)
    ensures n <= |s|
  {
    if s == [] || !IsSpace(s[0]) then 0 else 1 + LeadingSpace(s[1..])
  }

  /** Number of white-space characters at the back of `s`. */
  function TrailingSpace(s: string): (n: nat)
    ensures n <= |s|
  {
    if s == [] || !IsSpace(s[|s| - 1]) then 0 else 1 + TrailingSpace(s[..|s| - 1])
  }

  /** `LeadingSpace` counts the longest white-space prefix. */
  lemma {:induction false} LeadingSpaceSpec(s: string)
    ensures forall i :: 0 <= i < LeadingSpace(s) ==> IsSpace(s[i])
    ensures LeadingSpace(s) < |s| ==> !IsSpace(s[LeadingSpace(s)])
  {
    if s != [] && IsSpace(s[0]) {
      LeadingSpaceSpec(s[1..]);
      forall i | 1 <= i < LeadingSpace(s) ensures IsSpace(s[i]) {
        assert s[i] == s[1..][i - 1];
      }
    }
  }

  /** `TrailingSpace` counts the longest white-space suffix. */
  lemma {:induction false} TrailingSpaceSpec(s: string)
    ensures forall i :: |s| - TrailingSpace(s) <= i < |s| ==> IsSpace(s[i])
    ensures TrailingSpace(s) < |s| ==> !IsSpace(s[|s| - 1 - TrailingSpace(s)])
  {
    if s != [] && IsSpace(s[|s| - 1]) {
      TrailingSpaceSpec(s[..|s| - 1]);
    }
  }

  /** Python's `s.strip()`: `s` without its leading and trailing white space. */
  function Strip(s: string): (r: string)
    ensures |r| <= |s|
  {
    var t := s[LeadingSpace(s)..];
    t[..|t| - TrailingSpace(t)]
  }

  /** What stripping leaves: nothing exactly when `s` is all white space, and otherwise text
      that neither starts nor ends with white space. */
  lemma StripShape(s: string)
    ensures Strip(s) == [] <==> AllSpace(s)
    ensures Strip(s) != [] ==> !IsSpace(Strip(s)[0]) && !IsSpace(Strip(s)[|Strip(s)| - 1])
  {
    var lo := LeadingSpace(s);
    var t := s[lo..];
    LeadingSpaceSpec(s);
    TrailingSpaceSpec(t);
    if lo < |s| {
      assert t[0] == s[lo];
    } else {
      assert AllSpace(s);
    }
    if !AllSpace(s) {
      assert lo < |s|;
      assert TrailingSpace(t) < |t|;
    }
  }

  /** Python's `not s.strip()`: the string is empty or white space only. */
  predicate IsBlank(s: string) {
    Strip(s) == []
  }

  lemma BlankIffAllSpace(s: string)
    ensures IsBlank(s) <==> AllSpace(s)
  {
    StripShape(s);
  }

  /** Stripping removes exactly the white-space padding around a trimmed core: this pins
      `Strip` down independently of how it is computed. */
  lemma {:induction false} StripPadded(a: string, core: string, b: string)
    requires AllSpace(a) && AllSpace(b)
    requires core != [] ==> !IsSpace(core[0]) && !IsSpace(core[|core| - 1])
    ensures Strip(a + core + b) == core
  {
    var s := a + core + b;
    if core == [] {
      assert AllSpace(s) by {
        forall i | 0 <= i < |s| ensures IsSpace(s[i]) {
          if i < |a| { assert s[i] == a[i]; } else { assert s[i] == b[i - |a|]; }
        }
      }
      StripShape(s);
    } else {
      LeadingSpaceOf(a, core + b);
      assert a + core + b == a + (core + b);
      var t := s[|a|..];
      assert t == core + b;
      TrailingSpaceOf(core, b);
      assert t[..|t| - |b|] == core;
    }
  }

  lemma {:induction false} LeadingSpaceOf(a: string, rest: string)
    requires AllSpace(a)
    requires rest != [] && !IsSpace(rest[0])
    ensures LeadingSpace(a + rest) == |a|
  {
    if a != [] {
      assert (a + rest)[0] == a[0];
      assert (a + rest)[1..] == a[1..] + rest;
      LeadingSpaceOf(a[1..], rest);
    }
  }

  lemma {:induction false} TrailingSpaceOf(rest: string, b: string)
    requires AllSpace(b)
    requires rest != [] && !IsSpace(rest[|rest| - 1])
    ensures TrailingSpace(rest + b) == |b|
  {
    if b != [] {
      assert (rest + b)[|rest + b| - 1] == b[|b| - 1];
      assert (rest + b)[..|rest + b| - 1] == rest + b[..|b| - 1];
      TrailingSpaceOf(rest, b[..|b| - 1]);
    } else {
      assert rest + b == rest;
    }
  }

  /** Stripping twice is stripping once. */
  lemma StripIdempotent(s: string)
    ensures Strip(Strip(s)) == Strip(s)
  {
    var r := Strip(s);
    StripShape(s);
    StripPadded([], r, []);
    assert [] + r + [] == r;
  }

  /** ASCII case folding of one character. */
  function LowerChar(ch: char): char {
    if 'A' <= ch <= 'Z' then (ch as int - 'A' as int + 'a' as int) as char else ch
  }

  /** Python's `s.lower()`, restricted to ASCII letters. For the only comparisons the model
      makes (against "exit" and "!stop") this is exact: no other character lowers to one of
      their letters as a single character. */
  function Lower(s: string): (r: string)
    ensures |r| == |s|
  {
    seq(|s|, i requires 0 <= i < |s| => LowerChar(s[i]))
  }

  /** Python's `sep.join(parts)`. */
  function Join(sep: string, parts: seq<string>): (r: string)
    ensures parts == [] ==> r == []
    ensures |parts| == 1 ==> r == parts[0]
  {
    if parts == [] then []
    else if |parts| == 1 then parts[0]
    else parts[0] + sep + Join(sep, parts[1..])
  }

  /** Joining one more part appends the separator and that part, and nothing else. */
  lemma {:induction false} JoinSnoc(sep: string, parts: seq<string>, p: string)
    requires parts != []
    ensures Join(sep, parts + [p]) == Join(sep, parts) + sep + p
  {
    if |parts| > 1 {
      assert (parts + [p])[1..] == parts[1..] + [p];
      JoinSnoc(sep, parts[1..], p);
    }
  }

  /** How many times the two-character separator "; " occurs in `s`. */
  function Separators(s: string): nat {
    if |s| < 2 then 0
    else (if s[0] == ';' && s[1] == ' ' then 1 else 0) + Separators(s[1..])
  }

  /** Occurrences of "; " in a concatenation: those of each half plus at most one that
      straddles the seam. */
  lemma {:induction false} SeparatorsAppend(x: string, y: string)
    ensures Separators(x + y) ==
      Separators(x) + Separators(y)
      + (if x != [] && y != [] && x[|x| - 1] == ';' && y[0] == ' ' then 1 else 0)
  {
    if x == [] {
      assert x + y == y;
    } else {
      assert (x + y)[1..] == x[1..] + y;
      SeparatorsAppend(x[1..], y);
    }
  }
}
