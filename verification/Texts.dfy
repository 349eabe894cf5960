/** C strings, and the lines that CRLF divides a text into. */
module Texts {

  const CRLF: string := "\r\n"

  // ----- C strings -----

  /** The text up to the first NUL. */
  function CText(b: string): string {
    if b == "" || b[0] == '\0' then "" else [b[0]] + CText(b[1..])
  }

  lemma {:induction false} WholeText(b: string)
    requires '\0' !in b
    ensures CText(b) == b
  {
    if b != "" { WholeText(b[1..]); }
  }

  /** strncmp of t and p over the length of p gives 0. */
  predicate Starts(t: string, p: string) { |p| <= |t| && t[..|p|] == p }

  function Lower(c: char): char { if 'A' <= c <= 'Z' then (c as int + 32) as char else c }

  /** strcasecmp gives 0. */
  predicate SameText(s: string, t: string) { |s| == |t| && forall i :: 0 <= i < |s| ==> Lower(s[i]) == Lower(t[i]) }

  predicate IsTrue(line: string) { SameText(CText(line), "TRUE") }

  // ----- lines -----

  predicate PairAt(t: string, i: nat) { i + 1 < |t| && t[i] == '\r' && t[i + 1] == '\n' }

  /** No CRLF inside. */
  ghost predicate Plain(t: string) { forall i: nat :: !PairAt(t, i) }

  /** The first CRLF at or after a position, the length if there is none. */
  function FirstPair(t: string, i: nat): (p: nat)
    requires i <= |t|
    ensures i <= p <= |t| && (p < |t| ==> PairAt(t, p))
    ensures forall j: nat :: i <= j < p ==> !PairAt(t, j)
    decreases |t| - i
  {
    if i + 1 >= |t| then |t| else if PairAt(t, i) then i else FirstPair(t, i + 1)
  }

  /** The lines of a text, each up to its CRLF, which is how both services read. */
  function Lines(t: string): seq<string>
    decreases |t|
  {
    var p := FirstPair(t, 0);
    if p == |t| then [] else [t[..p]] + Lines(t[p + 2..])
  }

  /** The first line of a text, and the rest. */
  lemma FirstLine(line: string, rest: string)
    requires Plain(line)
    ensures Lines(line + CRLF + rest) == [line] + Lines(rest)
  {
    var t := line + CRLF + rest;
    assert PairAt(t, |line|);
    forall j: nat | j < |line| ensures !PairAt(t, j) {
      if j + 1 < |line| { assert t[j] == line[j] && t[j + 1] == line[j + 1] && !PairAt(line, j); }
    }
    assert t[..|line|] == line && t[|line| + 2..] == rest;
  }

  /** A buffer that read_line takes for one line is one line exactly when no CRLF is inside. */
  lemma OneLineExactlyWhenPlain(t: string)
    ensures Plain(t) <==> Lines(t + CRLF) == [t]
    ensures !Plain(t) ==> |Lines(t + CRLF)| >= 2
  {
    if Plain(t) {
      FirstLine(t, "");
      assert t + CRLF + "" == t + CRLF;
    } else {
      var p := FirstPair(t, 0);
      Divided(t);
      AnotherLine(t[p + 2..]);
    }
  }

  /** A text that is not plain divides at its first CRLF. */
  lemma Divided(t: string)
    requires !Plain(t)
    ensures var p := FirstPair(t, 0);
            && p + 2 <= |t| && Plain(t[..p]) && t == t[..p] + CRLF + t[p + 2..]
            && Lines(t + CRLF) == [t[..p]] + Lines(t[p + 2..] + CRLF)
  {
    hide Lines, Plain;
    HasPair(t);
    var p := FirstPair(t, 0);
    PlainPrefix(t, p);
    Around(t, p);
    FirstLine(t[..p], t[p + 2..] + CRLF);
    Regroup(t[..p], CRLF, t[p + 2..], CRLF);
  }

  lemma HasPair(t: string)
    requires !Plain(t)
    ensures FirstPair(t, 0) < |t|
  {
  }

  lemma Around(t: string, p: nat)
    requires PairAt(t, p)
    ensures t == t[..p] + CRLF + t[p + 2..]
  {
    assert t[p..p + 2] == CRLF;
    assert t == t[..p] + t[p..];
  }

  lemma Regroup(a: string, b: string, c: string, d: string)
    ensures a + b + c + d == a + b + (c + d)
  {
  }

  lemma PlainPrefix(t: string, p: nat)
    requires p <= |t| && forall j: nat :: j < p ==> !PairAt(t, j)
    ensures Plain(t[..p])
  {
    forall j: nat ensures !PairAt(t[..p], j) { if j + 1 < p { assert !PairAt(t, j); } }
  }

  /** The commands in what read_line delivers as one line. */
  function Commands(line: string): (n: nat)
    ensures n >= 1 && (n == 1 <==> Plain(line))
  {
    OneLineExactlyWhenPlain(line);
    |Lines(line + CRLF)|
  }

  lemma AnotherLine(t: string)
    ensures Lines(t + CRLF) != []
  {
    assert PairAt(t + CRLF, |t|);
  }
}
