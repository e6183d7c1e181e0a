/** The methods of `str` that the modelled code calls. */
module Strings {
  import opened Prelude
  import opened Whitespace

  predicate OneLine(s: string) {
    forall i :: 0 <= i < |s| ==> s[i] != '\n'
  }

  predicate StartsWith(s: string, prefix: string) {
    |prefix| <= |s| && forall i :: 0 <= i < |prefix| ==> s[i] == prefix[i]
  }

  /** `str::strip_prefix`. */
  function StripPrefix(s: string, prefix: string): Option<string> {
    if StartsWith(s, prefix) then Some(s[|prefix|..]) else None
  }

  predicate OccursAt(s: string, needle: string, i: nat) {
    i + |needle| <= |s| && s[i..i + |needle|] == needle
  }

  predicate Contains(s: string, needle: string) {
    exists i :: 0 <= i <= |s| && OccursAt(s, needle, i)
  }

  /** One character of `to_ascii_lowercase`. */
  function AsciiLower(c: char): char {
    if 'A' <= c <= 'Z' then c - 'A' + 'a' else c
  }

  /** The index of the first newline. */
  function NewlineAt(s: string): (k: nat)
    ensures k <= |s| && (k == |s| || s[k] == '\n')
    ensures forall i :: 0 <= i < k ==> s[i] != '\n'
  {
    if s == [] || s[0] == '\n' then 0 else 1 + NewlineAt(s[1..])
  }

  /** A line terminator may be preceded by a carriage return. */
  function StripReturn(s: string): string {
    if s != [] && s[|s| - 1] == '\r' then s[..|s| - 1] else s
  }

  /** `str::lines`. */
  function SplitLines(s: string): (r: seq<string>)
    ensures forall i :: 0 <= i < |r| ==> OneLine(r[i])
    decreases |s|
  {
    if s == [] then []
    else
      var k := NewlineAt(s);
      if k == |s| then assert s[..k] == s; [s] else [StripReturn(s[..k])] + SplitLines(s[k + 1..])
  }

  /** `join("\n")`. */
  function JoinLines(lines: seq<string>): string {
    if lines == [] then ""
    else if |lines| == 1 then lines[0]
    else lines[0] + "\n" + JoinLines(lines[1..])
  }

  lemma NewlineAfter(line: string, rest: string)
    requires OneLine(line)
    ensures NewlineAt(line + "\n" + rest) == |line|
  {
    var s := line + "\n" + rest;
    assert s[|line|] == '\n' && forall i :: 0 <= i < |line| ==> s[i] == line[i];
  }

  /** The first line of a text of several. */
  lemma SplitFirst(line: string, rest: string)
    requires OneLine(line)
    ensures SplitLines(line + "\n" + rest) == [StripReturn(line)] + SplitLines(rest)
  {
    var s := line + "\n" + rest;
    NewlineAfter(line, rest);
    assert s[..|line|] == line && s[|line| + 1..] == rest;
  }

  /** A line with its newline. */
  lemma SplitLine(line: string)
    requires OneLine(line)
    ensures SplitLines(line + "\n") == [StripReturn(line)]
  {
    SplitFirst(line, "");
    EmptyAppend(line + "\n");
  }

  /** A text is split before and behind any of its newlines. */
  lemma {:induction false} SplitConcat(a: string, b: string)
    ensures SplitLines(a + "\n" + b) == SplitLines(a + "\n") + SplitLines(b)
    decreases |a|
  {
    var k := NewlineAt(a);
    if k == |a| {
      SplitFirst(a, b);
      SplitLine(a);
    } else {
      var line, rest := a[..k], a[k + 1..];
      SplitConcat(rest, b);
      AtNewline(a, k, b);
      LineBefore(line, rest + "\n" + b, rest + "\n", b);
    }
  }

  lemma LineBefore(line: string, whole: string, front: string, b: string)
    requires OneLine(line) && SplitLines(whole) == SplitLines(front) + SplitLines(b)
    ensures SplitLines(line + "\n" + whole) == SplitLines(line + "\n" + front) + SplitLines(b)
  {
    SplitFirst(line, whole);
    SplitFirst(line, front);
    AppendAssociates([StripReturn(line)], SplitLines(front), SplitLines(b));
  }

  lemma AtNewline(a: string, k: nat, b: string)
    requires k < |a| && a[k] == '\n'
    ensures a + "\n" + b == a[..k] + "\n" + (a[k + 1..] + "\n" + b)
    ensures a + "\n" == a[..k] + "\n" + (a[k + 1..] + "\n")
  {
    assert a == a[..k] + "\n" + a[k + 1..];
  }

  lemma SplitSingle(line: string)
    requires OneLine(line) && line != []
    ensures SplitLines(line) == [line]
  {
    var k := NewlineAt(line);
    assert k == |line|;
  }

  /** What `lines` makes of joined lines: the same lines, a carriage return before a newline lost. */
  function Returned(lines: seq<string>): (r: seq<string>)
    ensures |r| == |lines|
    ensures forall i :: 0 <= i < |r| ==> r[i] == if i < |lines| - 1 then StripReturn(lines[i]) else lines[i]
  {
    seq(|lines|, i requires 0 <= i < |lines| => if i < |lines| - 1 then StripReturn(lines[i]) else lines[i])
  }

  lemma ReturnedTail(lines: seq<string>)
    requires |lines| > 1
    ensures Returned(lines) == [StripReturn(lines[0])] + Returned(lines[1..])
  {
  }

  lemma {:induction false} SplitJoined(lines: seq<string>)
    requires lines != [] && lines[|lines| - 1] != []
    requires forall i :: 0 <= i < |lines| ==> OneLine(lines[i])
    ensures SplitLines(JoinLines(lines)) == Returned(lines)
  {
    if |lines| == 1 {
      SplitSingle(lines[0]);
      assert Returned(lines) == lines == [lines[0]];
    } else {
      SplitFirst(lines[0], JoinLines(lines[1..]));
      SplitJoined(lines[1..]);
      ReturnedTail(lines);
    }
  }

  /** The words of a text joined by single spaces: `split_whitespace` and `join(" ")`. */
  function Normalize(s: string): string
    decreases |s|
  {
    var a := BlankHead(s, 0);
    if a == |s| then ""
    else
      var b := WordEnd(s, a);
      var rest := Normalize(s[b..]);
      s[a..b] + (if rest == "" then "" else " " + rest)
  }

  /** The end of the word that starts at `a`. */
  function WordEnd(s: string, a: nat): (b: nat)
    requires a < |s| && !IsBlank(s[a])
    ensures a < b <= |s| && (b == |s| || IsBlank(s[b]))
    ensures forall i :: a <= i < b ==> !IsBlank(s[i])
    decreases |s| - a
  {
    if a + 1 < |s| && !IsBlank(s[a + 1]) then WordEnd(s, a + 1) else a + 1
  }

  /** `compact_text`: at most `max` characters, the last three of them dots when something is cut. */
  function CompactText(s: string, max: nat): (r: string)
    ensures max >= 3 ==> |r| <= max
  {
    if |s| <= max then s else s[..if max >= 3 then max - 3 else 0] + "..."
  }

  /** The start of the last occurrence of a non-empty `needle`, as `rsplit_once` finds it. */
  function LastOccurrence(s: string, needle: string): (r: Option<nat>)
    requires needle != ""
    ensures r.Some? ==> OccursAt(s, needle, r.value) && forall i :: r.value < i <= |s| ==> !OccursAt(s, needle, i)
    ensures r.None? ==> forall i :: 0 <= i <= |s| ==> !OccursAt(s, needle, i)
  {
    LastFrom(s, needle, |s|)
  }

  function LastFrom(s: string, needle: string, n: nat): (r: Option<nat>)
    requires needle != "" && n <= |s|
    ensures r.Some? ==> r.value <= n && OccursAt(s, needle, r.value)
    ensures r.Some? ==> forall i :: r.value < i <= n ==> !OccursAt(s, needle, i)
    ensures r.None? ==> forall i :: 0 <= i <= n ==> !OccursAt(s, needle, i)
  {
    if OccursAt(s, needle, n) then Some(n) else if n == 0 then None else LastFrom(s, needle, n - 1)
  }

  /** Normalizing goes word by word: a word between blanks, and what is behind it. */
  lemma NormalizeWord(blanks: string, word: string, rest: string)
    requires AllBlank(blanks) && word != "" && (forall i :: 0 <= i < |word| ==> !IsBlank(word[i]))
    requires rest == "" || IsBlank(rest[0])
    ensures Normalize(blanks + word + rest) == word + (if Normalize(rest) == "" then "" else " " + Normalize(rest))
  {
    var s, a, b := blanks + word + rest, |blanks|, |blanks| + |word|;
    assert forall i :: 0 <= i < |blanks| ==> s[i] == blanks[i];
    assert forall i :: 0 <= i < |word| ==> s[a + i] == word[i];
    assert rest != "" ==> s[b] == rest[0];
    assert BlankHead(s, 0) == a && WordEnd(s, a) == b;
    assert s[a..b] == word && s[b..] == rest;
  }

  /** A text of blanks has no words. */
  lemma NormalizeBlank(s: string)
    ensures Normalize(s) == "" <==> AllBlank(s)
  {
  }
}
