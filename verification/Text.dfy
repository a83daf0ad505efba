/** The operations on Python strings that the two text formats are defined by. */
module Text {

  predicate Lower(c: char) { 'a' <= c <= 'z' }

  predicate Upper(c: char) { 'A' <= c <= 'Z' }

  predicate Digit(c: char) { '0' <= c <= '9' }

  /** `str.isspace` on one code point. */
  predicate SpaceCode(c: int) {
    || 0x09 <= c <= 0x0D || 0x1C <= c <= 0x20 || c == 0x85 || c == 0xA0 || c == 0x1680
    || 0x2000 <= c <= 0x200A || c == 0x2028 || c == 0x2029 || c == 0x202F || c == 0x205F || c == 0x3000
  }

  predicate IsSpace(c: char) { SpaceCode(c as int) }

  /** The line boundaries of `str.splitlines`. */
  predicate IsBreak(c: char) {
    var n := c as int;
    0x0A <= n <= 0x0D || 0x1C <= n <= 0x1E || n == 0x85 || n == 0x2028 || n == 0x2029
  }

  predicate IsControl(c: char) { c as int < 0x20 || c as int == 0x7F }

  predicate NoSpace(s: string) { forall i | 0 <= i < |s| :: !IsSpace(s[i]) }

  predicate NoBreak(s: string) { forall i | 0 <= i < |s| :: !IsBreak(s[i]) }

  predicate NoControl(s: string) { forall i | 0 <= i < |s| :: !IsControl(s[i]) }

  /** One field of a line. */
  predicate Word(s: string) { s != "" && NoSpace(s) }

  // ---- UTF-8 ----

  function Utf8Width(c: char): nat {
    var n := c as int;
    if n < 0x80 then 1 else if n < 0x800 then 2 else if n < 0x10000 then 3 else 4
  }

  function Utf8Size(s: string): (n: nat)
    ensures n >= |s|
  {
    if s == "" then 0 else Utf8Width(s[0]) + Utf8Size(s[1..])
  }

  // ---- lines ----

  function LineEnd(s: string): (n: nat)
    ensures n <= |s|
    ensures n < |s| ==> IsBreak(s[n])
  {
    if s == "" || IsBreak(s[0]) then 0 else 1 + LineEnd(s[1..])
  }

  /** Where the line after the break at `n` begins. */
  function NextLine(s: string, n: nat): (m: nat)
    requires n < |s|
    ensures n < m <= |s|
  {
    if s[n] == '\r' && n + 1 < |s| && s[n + 1] == '\n' then n + 2 else n + 1
  }

  /** `str.splitlines`. */
  function SplitLines(s: string): seq<string>
    decreases |s|
  {
    if s == "" then []
    else if LineEnd(s) == |s| then [s]
    else [s[..LineEnd(s)]] + SplitLines(s[NextLine(s, LineEnd(s))..])
  }

  /** The lines, each ended by a newline. */
  function Lined(lines: seq<string>): string {
    if lines == [] then "" else lines[0] + "\n" + Lined(lines[1..])
  }

  /** `"\n".join(lines)`. */
  function Joined(lines: seq<string>): string {
    if lines == [] then "" else if |lines| == 1 then lines[0] else lines[0] + "\n" + Joined(lines[1..])
  }

  predicate OneLiners(lines: seq<string>) { forall i | 0 <= i < |lines| :: NoBreak(lines[i]) }

  lemma {:induction false} LineEndIs(s: string, n: nat)
    requires n <= |s| && (forall i | 0 <= i < n :: !IsBreak(s[i])) && (n < |s| ==> IsBreak(s[n]))
    ensures LineEnd(s) == n
  {
    if n > 0 {
      LineEndIs(s[1..], n - 1);
    }
  }

  lemma {:induction false} BeforeLineEnd(s: string)
    ensures NoBreak(s[..LineEnd(s)])
  {
    if s != "" && !IsBreak(s[0]) {
      BeforeLineEnd(s[1..]);
      var head := s[..LineEnd(s)];
      assert head[1..] == s[1..][..LineEnd(s[1..])];
      forall i | 0 <= i < |head| ensures !IsBreak(head[i]) {
        assert i > 0 ==> head[i] == head[1..][i - 1];
      }
    }
  }

  lemma SplitOne(line: string, rest: string)
    requires NoBreak(line)
    ensures SplitLines(line + "\n" + rest) == [line] + SplitLines(rest)
  {
    var s := line + "\n" + rest;
    LineEndIs(s, |line|);
    assert s[..|line|] == line && s[|line| + 1..] == rest;
  }

  lemma {:induction false} SplitLined(lines: seq<string>)
    requires OneLiners(lines)
    ensures SplitLines(Lined(lines)) == lines
  {
    if lines != [] {
      SplitLined(lines[1..]);
      SplitOne(lines[0], Lined(lines[1..]));
    }
  }

  /** Joining loses a last line that is empty, and nothing else. */
  lemma {:induction false} SplitJoined(lines: seq<string>)
    requires OneLiners(lines) && lines != [] && lines[|lines| - 1] != ""
    ensures SplitLines(Joined(lines)) == lines
  {
    if |lines| == 1 {
      LineEndIs(lines[0], |lines[0]|);
    } else {
      SplitJoined(lines[1..]);
      SplitOne(lines[0], Joined(lines[1..]));
    }
  }

  lemma {:induction false} SplitLinesAre(s: string)
    ensures OneLiners(SplitLines(s)) && |SplitLines(s)| <= |s|
  {
    if s != "" {
      BeforeLineEnd(s);
      assert LineEnd(s) == |s| ==> s[..LineEnd(s)] == s;
      if LineEnd(s) < |s| {
        SplitLinesAre(s[NextLine(s, LineEnd(s))..]);
      }
    }
  }

  lemma {:induction false} SplitTidy(s: string)
    requires Tidy(s)
    ensures Plain(SplitLines(s))
  {
    if s != "" {
      BeforeLineEnd(s);
      var head := s[..LineEnd(s)];
      assert LineEnd(s) == |s| ==> head == s;
      assert NoControl(head) by {
        forall i | 0 <= i < |head| ensures !IsControl(head[i]) {
          assert !IsBreak(head[i]) && head[i] == s[i];
        }
      }
      if LineEnd(s) < |s| {
        var rest := s[NextLine(s, LineEnd(s))..];
        assert Tidy(rest);
        SplitTidy(rest);
      }
    }
  }

  lemma {:induction false} LinedAppend(a: seq<string>, b: seq<string>)
    ensures Lined(a + b) == Lined(a) + Lined(b)
  {
    if a == [] {
      assert a + b == b;
    } else {
      LinedAppend(a[1..], b);
      assert (a + b)[1..] == a[1..] + b;
    }
  }

  lemma {:induction false} LinedJoined(lines: seq<string>)
    requires lines != []
    ensures Lined(lines) == Joined(lines) + "\n"
  {
    if |lines| > 1 {
      LinedJoined(lines[1..]);
    } else {
      assert Lined(lines[1..]) == "";
    }
  }

  /** Lines that hold no line boundary and no control character. */
  predicate Plain(lines: seq<string>) {
    forall i | 0 <= i < |lines| :: NoBreak(lines[i]) && NoControl(lines[i])
  }

  /** No control character but the newline. */
  predicate Clean(s: string) { forall i | 0 <= i < |s| :: s[i] == '\n' || !IsControl(s[i]) }

  /** No control character but line endings, as files are decoded. */
  predicate Tidy(s: string) { forall i | 0 <= i < |s| :: s[i] == '\n' || s[i] == '\r' || !IsControl(s[i]) }

  lemma {:induction false} PlainIsClean(lines: seq<string>)
    requires Plain(lines)
    ensures Clean(Lined(lines)) && OneLiners(lines)
  {
    if lines != [] {
      PlainIsClean(lines[1..]);
    }
  }

  lemma PlainAppend(a: seq<string>, b: seq<string>)
    requires Plain(a) && Plain(b)
    ensures Plain(a + b)
  {
  }

  /** `text.replace("\r\n", "\n")`. */
  function Unix(s: string): string {
    if s == "" then ""
    else if s[0] == '\r' && |s| > 1 && s[1] == '\n' then Unix(s[1..])
    else [s[0]] + Unix(s[1..])
  }

  lemma {:induction false} UnixAlready(s: string)
    requires Clean(s)
    ensures Unix(s) == s
  {
    if s != "" {
      UnixAlready(s[1..]);
    }
  }

  lemma {:induction false} UnixKeeps(s: string)
    ensures |Unix(s)| <= |s| && (Tidy(s) ==> Tidy(Unix(s)))
  {
    if s != "" {
      UnixKeeps(s[1..]);
    }
  }

  // ---- words ----

  function LStrip(s: string): (r: string)
    ensures |r| <= |s|
  {
    if s != "" && IsSpace(s[0]) then LStrip(s[1..]) else s
  }

  function RStrip(s: string): (r: string)
    ensures |r| <= |s|
  {
    if s != "" && IsSpace(s[|s| - 1]) then RStrip(s[..|s| - 1]) else s
  }

  /** `str.strip`. */
  function Strip(s: string): string { RStrip(LStrip(s)) }

  predicate Stripped(s: string) {
    s == "" || (!IsSpace(s[0]) && !IsSpace(s[|s| - 1]))
  }

  lemma {:induction false} RStripIs(s: string)
    ensures RStrip(s) <= s
    ensures RStrip(s) != "" ==> !IsSpace(RStrip(s)[|RStrip(s)| - 1])
  {
    if s != "" && IsSpace(s[|s| - 1]) {
      RStripIs(s[..|s| - 1]);
    }
  }

  lemma {:induction false} LStripIs(s: string)
    ensures LStrip(s) == s[|s| - |LStrip(s)|..]
    ensures LStrip(s) != "" ==> !IsSpace(LStrip(s)[0])
  {
    if s != "" && IsSpace(s[0]) {
      LStripIs(s[1..]);
    }
  }

  lemma StripIs(s: string)
    ensures Stripped(Strip(s))
    ensures forall c | c in Strip(s) :: c in s
    ensures Stripped(s) ==> Strip(s) == s
  {
    LStripIs(s);
    RStripIs(LStrip(s));
  }

  lemma StripKeeps(s: string)
    ensures NoBreak(s) ==> NoBreak(Strip(s))
    ensures NoControl(s) ==> NoControl(Strip(s))
  {
    StripIs(s);
    var t := Strip(s);
    forall i | 0 <= i < |t| ensures NoBreak(s) ==> !IsBreak(t[i]) ensures NoControl(s) ==> !IsControl(t[i]) {
      assert t[i] in s;
    }
  }

  function WordEnd(s: string): (n: nat)
    ensures n <= |s|
    ensures s != "" && !IsSpace(s[0]) ==> n > 0
  {
    if s == "" || IsSpace(s[0]) then 0 else 1 + WordEnd(s[1..])
  }

  /** `str.split`. */
  function Fields(s: string): seq<string>
    decreases |s|
  {
    if s == "" then []
    else if IsSpace(s[0]) then Fields(s[1..])
    else [s[..WordEnd(s)]] + Fields(s[WordEnd(s)..])
  }

  /** `" ".join(words)`. */
  function Spaced(words: seq<string>): string {
    if words == [] then "" else if |words| == 1 then words[0] else words[0] + " " + Spaced(words[1..])
  }

  predicate Words(words: seq<string>) { forall i | 0 <= i < |words| :: Word(words[i]) }

  lemma {:induction false} WordEndIs(s: string, n: nat)
    requires n <= |s| && (forall i | 0 <= i < n :: !IsSpace(s[i])) && (n < |s| ==> IsSpace(s[n]))
    ensures WordEnd(s) == n
  {
    if n > 0 {
      WordEndIs(s[1..], n - 1);
    }
  }

  lemma {:induction false} FieldsOfSpaced(words: seq<string>)
    requires Words(words)
    ensures Fields(Spaced(words)) == words
  {
    if |words| == 1 {
      WordEndIs(words[0], |words[0]|);
      var s := words[0];
      assert s[|s|..] == "" && s[..|s|] == s && words == [s];
      assert Fields(s[|s|..]) == [];
    } else if |words| > 1 {
      var s, rest := Spaced(words), Spaced(words[1..]);
      FieldsOfSpaced(words[1..]);
      WordEndIs(s, |words[0]|);
      assert s[..|words[0]|] == words[0] && s[|words[0]|..] == " " + rest;
      assert (" " + rest)[1..] == rest;
    }
  }

  lemma {:induction false} SpacedEnds(words: seq<string>)
    requires Words(words) && words != []
    ensures Spaced(words) != "" && Stripped(Spaced(words)) && Spaced(words)[0] == words[0][0]
  {
    if |words| > 1 {
      SpacedEnds(words[1..]);
    }
  }

  lemma {:induction false} SpacedChars(words: seq<string>, c: char)
    requires c in Spaced(words) && c != ' '
    ensures exists i | 0 <= i < |words| :: c in words[i]
  {
    if |words| > 1 && c !in words[0] {
      SpacedChars(words[1..], c);
      var i :| 0 <= i < |words[1..]| && c in words[1..][i];
      assert c in words[i + 1];
    } else {
      assert c in words[0];
    }
  }

  lemma SpacedPlain(words: seq<string>)
    requires Words(words) && forall i | 0 <= i < |words| :: NoControl(words[i])
    ensures Plain([Spaced(words)])
  {
    var line := Spaced(words);
    forall i | 0 <= i < |line| ensures !IsBreak(line[i]) && !IsControl(line[i]) {
      if line[i] != ' ' {
        SpacedChars(words, line[i]);
        var j :| 0 <= j < |words| && line[i] in words[j];
        assert Word(words[j]);
      }
    }
  }

  lemma {:induction false} FieldsAre(s: string)
    ensures Words(Fields(s))
    ensures NoControl(s) ==> forall i | 0 <= i < |Fields(s)| :: NoControl(Fields(s)[i])
  {
    if s != "" {
      if IsSpace(s[0]) {
        FieldsAre(s[1..]);
      } else {
        FieldsAre(s[WordEnd(s)..]);
        BeforeWordEnd(s);
      }
    }
  }

  lemma {:induction false} BeforeWordEnd(s: string)
    ensures NoSpace(s[..WordEnd(s)])
  {
    if s != "" && !IsSpace(s[0]) {
      BeforeWordEnd(s[1..]);
      var head := s[..WordEnd(s)];
      assert head[1..] == s[1..][..WordEnd(s[1..])];
      forall i | 0 <= i < |head| ensures !IsSpace(head[i]) {
        assert i > 0 ==> head[i] == head[1..][i - 1];
      }
    }
  }

  /** The index of the first `c`, or the length. */
  function IndexOf(s: string, c: char): (n: nat)
    ensures n <= |s| && c !in s[..n] && (n < |s| ==> s[n] == c)
  {
    if s == "" || s[0] == c then 0 else 1 + IndexOf(s[1..], c)
  }

  /** `str.partition`: what precedes the first `c`, and what follows it. */
  function Head(s: string, c: char): string { s[..IndexOf(s, c)] }

  function Rest(s: string, c: char): string {
    var n := IndexOf(s, c);
    if n < |s| then s[n + 1..] else ""
  }

  lemma {:induction false} IndexPast(s: string, rest: string, c: char)
    requires c !in s && (rest == "" || rest[0] == c)
    ensures IndexOf(s + rest, c) == |s|
  {
    if s != "" {
      assert (s + rest)[1..] == s[1..] + rest;
      assert s[0] in s && forall x | x in s[1..] :: x in s;
      IndexPast(s[1..], rest, c);
    } else {
      assert s + rest == rest;
    }
  }

  /** A text that holds `c` is its head, `c` and its rest. */
  lemma PartitionIs(s: string, c: char)
    requires c in s
    ensures s == Head(s, c) + [c] + Rest(s, c) && c !in Head(s, c)
  {
    assert s[..|s|] == s;
  }

  lemma PartitionOf(head: string, c: char, rest: string)
    requires c !in head
    ensures Head(head + [c] + rest, c) == head && Rest(head + [c] + rest, c) == rest
  {
    assert head + [c] + rest == head + ([c] + rest);
    IndexPast(head, [c] + rest, c);
  }
}
