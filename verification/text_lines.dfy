/**
 * The line parser of the ripgrep wrapper, `stdout.trim().split('\n').filter(Boolean)`,
 * as three string functions with their partners: trimming against the unique
 * "strip the blank ends" infix, splitting against joining, filtering against
 * the multiset of kept lines.
 */
module TextLines {

  /** The code points JavaScript's `String.prototype.trim` removes: WhiteSpace and LineTerminator. */
  predicate IsTrimmable(c: char) {
    var n := c as int;
    || n == 0x09 || n == 0x0A || n == 0x0B || n == 0x0C || n == 0x0D
    || n == 0x20 || n == 0xA0 || n == 0x1680 || (0x2000 <= n <= 0x200A)
    || n == 0x2028 || n == 0x2029 || n == 0x202F || n == 0x205F || n == 0x3000
    || n == 0xFEFF
  }

  /** Every character of `s[lo..hi]` is one that `trim` removes. */
  predicate Blank(s: string, lo: int, hi: int)
    requires 0 <= lo && hi <= |s|
  {
    forall k :: lo <= k < hi ==> IsTrimmable(s[k])
  }

  /**
   * `s[i..j]` is what trimming `s` leaves: only blank characters outside it,
   * and it neither starts nor ends with one.
   */
  predicate IsTrimOf(s: string, i: int, j: int) {
    && 0 <= i <= j <= |s|
    && Blank(s, 0, i) && Blank(s, j, |s|)
    && (i == j || (!IsTrimmable(s[i]) && !IsTrimmable(s[j - 1])))
  }

  /** The number of leading trimmable characters of `s`. */
  function LeadingBlanks(s: string): (i: nat)
    ensures i <= |s| && Blank(s, 0, i)
    ensures i == |s| || !IsTrimmable(s[i])
  {
    if |s| > 0 && IsTrimmable(s[0]) then
      var i := 1 + LeadingBlanks(s[1..]);
      assert forall k :: 1 <= k < i ==> s[k] == s[1..][k - 1];
      i
    else
      0
  }

  /** The length of `s` without its trailing trimmable characters. */
  function TrailingCut(s: string): (j: nat)
    ensures j <= |s| && Blank(s, j, |s|)
    ensures j == 0 || !IsTrimmable(s[j - 1])
  {
    if |s| > 0 && IsTrimmable(s[|s| - 1]) then TrailingCut(s[..|s| - 1]) else |s|
  }

  /**
   * `s.trim()`: the infix of `s` that starts after its leading blanks and
   * has nothing but blanks after it.
   */
  function Trim(s: string): (r: string)
    ensures LeadingBlanks(s) + |r| <= |s|
    ensures IsTrimOf(s, LeadingBlanks(s), LeadingBlanks(s) + |r|)
    ensures r == s[LeadingBlanks(s)..LeadingBlanks(s) + |r|]
  {
    var i := LeadingBlanks(s);
    var j := i + TrailingCut(s[i..]);
    BlankSuffix(s, i, j);
    s[i..j]
  }

  /** The blank end of a suffix of `s` is a blank end of `s`. */
  lemma BlankSuffix(s: string, i: nat, j: nat)
    requires i <= j <= |s|
    requires Blank(s[i..], j - i, |s| - i)
    ensures Blank(s, j, |s|)
  {
    forall k | j <= k < |s| ensures IsTrimmable(s[k]) {
      assert s[k] == s[i..][k - i];
    }
  }

  /**
   * Trimming is determined by its contract: every `s[i..j]` that has only
   * blanks outside it and no blank at its ends is `Trim(s)`.
   */
  lemma TrimUnique(s: string, i: int, j: int)
    requires IsTrimOf(s, i, j)
    ensures Trim(s) == s[i..j]
  {
  }

  /** Trimming twice is trimming once. */
  lemma TrimIdempotent(s: string)
    ensures Trim(Trim(s)) == Trim(s)
  {
    var r := Trim(s);
    TrimUnique(r, 0, |r|);
  }

  /** `lines.join('\n')`. */
  function Join(lines: seq<string>): string {
    if |lines| == 0 then ""
    else if |lines| == 1 then lines[0]
    else lines[0] + "\n" + Join(lines[1..])
  }

  /** The index of the first `'\n'` in `s`, or `|s|` when there is none. */
  function FirstNewline(s: string): (k: nat)
    ensures k <= |s|
    ensures forall i :: 0 <= i < k ==> s[i] != '\n'
    ensures k < |s| ==> s[k] == '\n'
  {
    if |s| == 0 || s[0] == '\n' then 0 else 1 + FirstNewline(s[1..])
  }

  /**
   * `s.split('\n')`: the pieces between separators, never none; joining
   * them with `'\n'` gives `s` back.
   */
  function Split(s: string): (pieces: seq<string>)
    ensures |pieces| >= 1
    ensures forall p :: p in pieces ==> '\n' !in p
    ensures Join(pieces) == s
    decreases |s|
  {
    var k := FirstNewline(s);
    if k == |s| then
      assert s[..k] == s;
      [s]
    else
      var rest := Split(s[k + 1..]);
      assert s == s[..k] + "\n" + s[k + 1..];
      [s[..k]] + rest
  }

  /** The first `'\n'` of `head + "\n" + tail` is the one after `head`, when `head` has none. */
  lemma FirstNewlineAfter(head: string, tail: string)
    requires '\n' !in head
    ensures FirstNewline(head + "\n" + tail) == |head|
  {
    var s := head + "\n" + tail;
    assert s[|head|] == '\n';
    forall i | 0 <= i < |head| ensures s[i] != '\n' {
      assert s[i] == head[i];
    }
  }

  /** Splitting undoes joining, for lines that hold no `'\n'`. */
  lemma {:induction false} SplitJoin(lines: seq<string>)
    requires |lines| >= 1
    requires forall l :: l in lines ==> '\n' !in l
    ensures Split(Join(lines)) == lines
    decreases |lines|
  {
    if |lines| > 1 {
      var s := Join(lines);
      var head := lines[0];
      assert s == head + "\n" + Join(lines[1..]);
      var k := FirstNewline(s);
      assert head in lines;
      FirstNewlineAfter(head, Join(lines[1..]));
      assert s[..k] == head;
      assert s[k + 1..] == Join(lines[1..]);
      SplitJoin(lines[1..]);
    } else {
      assert lines[0] in lines;
    }
  }

  /** `lines.filter(Boolean)`: only non-empty lines, each one of the input's. */
  function NonEmpty(lines: seq<string>): (kept: seq<string>)
    ensures forall l :: l in kept ==> l in lines && l != ""
    ensures (forall l :: l in lines ==> l != "") ==> kept == lines
  {
    if |lines| == 0 then []
    else
      var rest := NonEmpty(lines[1..]);
      assert lines == [lines[0]] + lines[1..];
      assert lines[0] in lines;
      assert forall l :: l in lines[1..] ==> l in lines;
      if lines[0] == "" then rest else [lines[0]] + rest
  }

  /** Filtering keeps each non-empty line exactly as often as it occurs. */
  lemma {:induction false} NonEmptyCounts(lines: seq<string>)
    ensures multiset(NonEmpty(lines)) == multiset(lines)["" := 0]
  {
    if |lines| > 0 {
      NonEmptyCounts(lines[1..]);
      assert lines == [lines[0]] + lines[1..];
      assert multiset(lines) == multiset{lines[0]} + multiset(lines[1..]);
    }
  }

  /** Filtering distributes over concatenation, so it keeps the order of the lines. */
  lemma {:induction false} NonEmptyAppend(a: seq<string>, b: seq<string>)
    ensures NonEmpty(a + b) == NonEmpty(a) + NonEmpty(b)
    decreases |a|
  {
    if |a| > 0 {
      assert (a + b)[1..] == a[1..] + b;
      NonEmptyAppend(a[1..], b);
    } else {
      assert a + b == b;
    }
  }

  /** The lines of captured output: `stdout.trim().split('\n').filter(Boolean)`. */
  function ParseLines(stdout: string): (lines: seq<string>)
    ensures forall i :: 0 <= i < |lines| ==> lines[i] != "" && '\n' !in lines[i]
  {
    var kept := NonEmpty(Split(Trim(stdout)));
    assert forall i :: 0 <= i < |kept| ==> kept[i] in kept;
    kept
  }

  /** `t` has no empty line between two line breaks. */
  predicate NoBlankLines(t: string) {
    forall k :: 0 <= k < |t| - 1 ==> !(t[k] == '\n' && t[k + 1] == '\n')
  }

  /** Output with nothing but blanks is exactly the output that yields no lines. */
  lemma ParseLinesEmpty(stdout: string)
    ensures ParseLines(stdout) == [] <==> Blank(stdout, 0, |stdout|)
  {
    var t := Trim(stdout);
    var pieces := Split(t);
    if Blank(stdout, 0, |stdout|) {
      TrimUnique(stdout, 0, 0);
      assert pieces == [""];
    }
  }

  /** The pieces of a text without blank lines, leading or trailing break are all non-empty. */
  lemma {:induction false} SplitNoEmptyPieces(t: string)
    requires t != [] && t[0] != '\n' && t[|t| - 1] != '\n'
    requires NoBlankLines(t)
    ensures forall p :: p in Split(t) ==> p != ""
    decreases |t|
  {
    var k := FirstNewline(t);
    if k < |t| {
      var rest := t[k + 1..];
      assert t[k] == '\n';
      assert rest[0] == t[k + 1];
      SplitNoEmptyPieces(rest);
      assert Split(t) == [t[..k]] + Split(rest);
    }
  }

  /** Joining non-empty lines that hold no break never makes a blank line. */
  lemma {:induction false} JoinNoBlankLines(lines: seq<string>)
    requires forall l :: l in lines ==> l != "" && '\n' !in l
    ensures NoBlankLines(Join(lines))
    decreases |lines|
  {
    if |lines| == 1 {
      assert lines[0] in lines;
    } else if |lines| > 1 {
      var head, tail := lines[0], Join(lines[1..]);
      assert head in lines && lines[1] in lines;
      assert forall l :: l in lines[1..] ==> l in lines;
      JoinNoBlankLines(lines[1..]);
      var t := head + "\n" + tail;
      assert t == Join(lines);
      assert tail[0] == lines[1][0];
      forall k | 0 <= k < |t| - 1 ensures !(t[k] == '\n' && t[k + 1] == '\n') {
        if k < |head| {
          assert t[k] == head[k];
        } else if k > |head| {
          assert t[k] == tail[k - |head| - 1] && t[k + 1] == tail[k - |head|];
        }
      }
    }
  }

  /**
   * Joining the parsed lines with `'\n'` gives back the trimmed output
   * exactly when that output has no blank line.
   */
  lemma JoinParseLines(stdout: string)
    ensures Join(ParseLines(stdout)) == Trim(stdout) <==> NoBlankLines(Trim(stdout))
  {
    var t := Trim(stdout);
    if NoBlankLines(t) && t != "" {
      assert IsTrimmable(t[0]) == false && IsTrimmable(t[|t| - 1]) == false;
      SplitNoEmptyPieces(t);
    }
    JoinNoBlankLines(ParseLines(stdout));
  }

  /** A single match with its trailing break gives one line. */
  lemma ParseSingleMatch()
    ensures ParseLines("a:3:x\n") == ["a:3:x"]
  {
    var out, line := "a:3:x\n", "a:3:x";
    TrimUnique(out, 0, |line|);
    assert out[0..|line|] == line;
    SplitJoin([line]);
  }

  /** Only the whole output is trimmed: an inner line keeps its carriage return. */
  lemma ParseKeepsInnerCarriageReturn()
    ensures ParseLines("a:1\r\nb:2\r\n") == ["a:1\r", "b:2"]
  {
    var out, lines := "a:1\r\nb:2\r\n", ["a:1\r", "b:2"];
    TrimUnique(out, 0, |out| - 2);
    assert out[0..|out| - 2] == Join(lines);
    SplitJoin(lines);
    assert Split(Trim(out)) == lines;
    assert lines[0] != "" && lines[1] != "";
    assert NonEmpty(lines) == lines;
  }

  /** A joined text starts with its first line, followed by a break when more lines come. */
  lemma JoinFirst(lines: seq<string>)
    requires |lines| >= 1
    ensures var s, first := Join(lines), lines[0];
            |first| <= |s| && s[..|first|] == first && (|lines| > 1 ==> |first| < |s| && s[|first|] == '\n')
  {
  }

  /** A joined text ends with its last line, preceded by a break when other lines came before. */
  lemma {:induction false} JoinLast(lines: seq<string>)
    requires |lines| >= 1
    ensures var s, last := Join(lines), lines[|lines| - 1];
            |last| <= |s| && s[|s| - |last|..] == last && (|lines| > 1 ==> |last| < |s| && s[|s| - |last| - 1] == '\n')
    decreases |lines|
  {
    if |lines| > 1 {
      var tail := lines[1..];
      JoinLast(tail);
      var s, t, last := Join(lines), Join(tail), lines[|lines| - 1];
      assert s == lines[0] + "\n" + t;
      assert tail[|tail| - 1] == last;
      assert s[|s| - |last|..] == t[|t| - |last|..];
      if |tail| == 1 {
        assert |s| - |last| - 1 == |lines[0]|;
      } else {
        assert s[|s| - |last| - 1] == t[|t| - |last| - 1];
      }
    }
  }

  /** A text that neither starts nor ends with a break starts its first piece and ends its last. */
  lemma SplitEnds(t: string)
    requires t != "" && t[0] != '\n' && t[|t| - 1] != '\n'
    ensures var pieces := Split(t);
            && pieces[0] != "" && pieces[0][0] == t[0]
            && pieces[|pieces| - 1] != "" && pieces[|pieces| - 1][|pieces[|pieces| - 1]| - 1] == t[|t| - 1]
  {
    var pieces := Split(t);
    JoinFirst(pieces);
    JoinLast(pieces);
  }

  /** Filtering keeps a non-empty first and a non-empty last line where they are. */
  lemma NonEmptyEnds(lines: seq<string>)
    requires |lines| > 0 && lines[0] != "" && lines[|lines| - 1] != ""
    ensures var kept := NonEmpty(lines);
            |kept| > 0 && kept[0] == lines[0] && kept[|kept| - 1] == lines[|lines| - 1]
  {
    var last := lines[|lines| - 1];
    assert lines == lines[..|lines| - 1] + [last];
    NonEmptyAppend(lines[..|lines| - 1], [last]);
  }

  /** The kept pieces of a text that neither starts nor ends with a break start and end as the text does. */
  lemma KeptPiecesEnds(t: string)
    requires t != "" && t[0] != '\n' && t[|t| - 1] != '\n'
    ensures var lines := NonEmpty(Split(t));
            && lines != [] && lines[0] != "" && lines[|lines| - 1] != ""
            && lines[0][0] == t[0] && lines[|lines| - 1][|lines[|lines| - 1]| - 1] == t[|t| - 1]
  {
    var pieces := Split(t);
    SplitEnds(t);
    NonEmptyEnds(pieces);
    var lines := NonEmpty(pieces);
    assert lines[0] == pieces[0] && lines[|lines| - 1] == pieces[|pieces| - 1];
  }

  /**
   * Only the ends of the whole output are trimmed: the first line does not
   * start, and the last line does not end, with a blank character.
   */
  lemma ParseLinesEnds(stdout: string)
    ensures var lines := ParseLines(stdout);
            lines != [] ==> !IsTrimmable(lines[0][0]) && !IsTrimmable(lines[|lines| - 1][|lines[|lines| - 1]| - 1])
  {
    var t := Trim(stdout);
    if t != "" {
      assert !IsTrimmable(t[0]) && !IsTrimmable(t[|t| - 1]);
      KeptPiecesEnds(t);
    } else {
      assert Split(t) == [""];
    }
  }
}
