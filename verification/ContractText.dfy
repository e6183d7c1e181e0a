/** Reducing a run's output to display text: structured contract output is not shown as it is. */
module ContractText {
  import opened Prelude
  import opened Whitespace
  import opened Strings
  import opened Utf8
  import opened Json

  /** `to_ascii_lowercase`. */
  function Lowered(s: string): (r: string)
    ensures |r| == |s| && forall i :: 0 <= i < |r| ==> r[i] == AsciiLower(s[i])
  {
    seq(|s|, i requires 0 <= i < |s| => AsciiLower(s[i]))
  }

  /** `looks_like_structured_output_contract`. */
  predicate LooksLikeContract(t: string) {
    var lower := Lowered(t);
    || StartsWith(t, "{") || StartsWith(t, "[") || StartsWith(t, "```")
    || Contains(lower, "output contract") || Contains(lower, "craik contract output")
    || Contains(lower, "**craik.") || Contains(lower, "\"schema\"")
  }

  /** `displayable_contract_text`. */
  function Displayable(t: string): Option<string> {
    var trimmed := Trim(t);
    if trimmed == "" || LooksLikeContract(trimmed) then None else Some(trimmed)
  }

  predicate IsDisplayText(t: string) {
    Trimmed(t) && t != "" && !LooksLikeContract(t)
  }

  function OrElse(a: Option<string>, b: Option<string>): Option<string> {
    if a.Some? then a else b
  }

  // ----- the search -----

  const NESTED_KEYS: seq<string> := ["observed_output", "payload", "output"]
  const TEXT_KEYS: seq<string> := ["final_answer", "answer", "text", "response", "result", "summary", "message"]

  /** `extract_contract_display_text`. */
  function Extract(v: Value): Option<string>
    decreases v, 1, 0
  {
    match v
    case Str(t) => Displayable(t)
    case Array(items) => ExtractFirst(v, 0)
    case Object(fields) =>
      OrElse(ExtractKeys(v, NESTED_KEYS),
             OrElse(if "run_outputs" in fields then ExtractOutputs(fields["run_outputs"], 0) else None,
                    OrElse(if "content" in fields then Extract(fields["content"]) else None,
                           DisplayableKeys(v, TEXT_KEYS))))
    case _ => None
  }

  /** The first item of an array, from `i` on, that yields a text. */
  function ExtractFirst(v: Value, i: nat): Option<string>
    requires v.Array?
    decreases v, 0, |v.items| - i
  {
    if i >= |v.items| then None else OrElse(Extract(v.items[i]), ExtractFirst(v, i + 1))
  }

  /** The first of the keys whose value yields a text. */
  function ExtractKeys(v: Value, keys: seq<string>): Option<string>
    requires v.Object?
    decreases v, 0, |keys|
  {
    if keys == [] then None
    else OrElse(if keys[0] in v.fields then Extract(v.fields[keys[0]]) else None, ExtractKeys(v, keys[1..]))
  }

  /** The recorded outputs, from `i` on: what was observed, or else the summary. */
  function ExtractOutputs(v: Value, i: nat): Option<string>
    decreases v, 0, if v.Array? then |v.items| - i else 0
  {
    if !v.Array? || i >= |v.items| then None
    else OrElse(ExtractOutput(v.items[i]), ExtractOutputs(v, i + 1))
  }

  function ExtractOutput(v: Value): Option<string>
    decreases v, 1, 0
  {
    if !v.Object? then None
    else OrElse(if "observed_output" in v.fields then Extract(v.fields["observed_output"]) else None,
                DisplayableKeys(v, ["summary"]))
  }

  /** The first of the keys that holds a displayable string. */
  function DisplayableKeys(v: Value, keys: seq<string>): Option<string> {
    if keys == [] then None
    else
      var t := GetStr(v, keys[0]);
      OrElse(if t.Some? then Displayable(t.value) else None, DisplayableKeys(v, keys[1..]))
  }

  // ----- what the search means -----

  /** The texts the search looks at, in its order: depth first, each object's keys in their fixed order. */
  function Texts(v: Value): seq<string>
    decreases v, 1, 0
  {
    match v
    case Str(t) => [t]
    case Array(items) => TextsFrom(v, 0)
    case Object(fields) =>
      TextsOfKeys(v, NESTED_KEYS)
      + ((if "run_outputs" in fields then TextsOfOutputs(fields["run_outputs"], 0) else [])
         + ((if "content" in fields then Texts(fields["content"]) else [])
            + StringsAt(v, TEXT_KEYS)))
    case _ => []
  }

  function TextsFrom(v: Value, i: nat): seq<string>
    requires v.Array?
    decreases v, 0, |v.items| - i
  {
    if i >= |v.items| then [] else Texts(v.items[i]) + TextsFrom(v, i + 1)
  }

  function TextsOfKeys(v: Value, keys: seq<string>): seq<string>
    requires v.Object?
    decreases v, 0, |keys|
  {
    if keys == [] then []
    else (if keys[0] in v.fields then Texts(v.fields[keys[0]]) else []) + TextsOfKeys(v, keys[1..])
  }

  function TextsOfOutputs(v: Value, i: nat): seq<string>
    decreases v, 0, if v.Array? then |v.items| - i else 0
  {
    if !v.Array? || i >= |v.items| then [] else TextsOfOutput(v.items[i]) + TextsOfOutputs(v, i + 1)
  }

  function TextsOfOutput(v: Value): seq<string>
    decreases v, 1, 0
  {
    if !v.Object? then []
    else (if "observed_output" in v.fields then Texts(v.fields["observed_output"]) else []) + StringsAt(v, ["summary"])
  }

  function StringsAt(v: Value, keys: seq<string>): seq<string> {
    if keys == [] then []
    else (if GetStr(v, keys[0]).Some? then [GetStr(v, keys[0]).value] else []) + StringsAt(v, keys[1..])
  }

  function FirstDisplayable(texts: seq<string>): Option<string> {
    if texts == [] then None else OrElse(Displayable(texts[0]), FirstDisplayable(texts[1..]))
  }

  lemma {:induction false} FirstOfBoth(a: seq<string>, b: seq<string>)
    ensures FirstDisplayable(a + b) == OrElse(FirstDisplayable(a), FirstDisplayable(b))
  {
    if a == [] {
      EmptyAppend(b);
    } else {
      TailOfAppend(a, b);
      FirstOfBoth(a[1..], b);
    }
  }

  lemma {:induction false} StringsAreFirst(v: Value, keys: seq<string>)
    ensures FirstDisplayable(StringsAt(v, keys)) == DisplayableKeys(v, keys)
  {
    if keys != [] {
      StringsAreFirst(v, keys[1..]);
      var t := GetStr(v, keys[0]);
      FirstOfBoth(if t.Some? then [t.value] else [], StringsAt(v, keys[1..]));
      if t.Some? { assert [t.value][1..] == []; }
    }
  }

  /** The search finds the first displayable of those texts, and nothing when none is displayable. */
  lemma {:induction false} ExtractIsFirst(v: Value)
    ensures Extract(v) == FirstDisplayable(Texts(v))
    decreases v, 1, 0
  {
    match v
    case Str(t) => assert [t][1..] == [];
    case Array(items) => ExtractFirstIsFirst(v, 0);
    case Object(fields) =>
      var nested := TextsOfKeys(v, NESTED_KEYS);
      var outputs := if "run_outputs" in fields then TextsOfOutputs(fields["run_outputs"], 0) else [];
      var content := if "content" in fields then Texts(fields["content"]) else [];
      var strings := StringsAt(v, TEXT_KEYS);
      ExtractKeysIsFirst(v, NESTED_KEYS);
      if "run_outputs" in fields { ExtractOutputsIsFirst(fields["run_outputs"], 0); }
      if "content" in fields { ExtractIsFirst(fields["content"]); }
      StringsAreFirst(v, TEXT_KEYS);
      FirstOfBoth(content, strings);
      FirstOfBoth(outputs, content + strings);
      FirstOfBoth(nested, outputs + (content + strings));
    case _ =>
  }

  lemma {:induction false} ExtractFirstIsFirst(v: Value, i: nat)
    requires v.Array?
    ensures ExtractFirst(v, i) == FirstDisplayable(TextsFrom(v, i))
    decreases v, 0, |v.items| - i
  {
    if i < |v.items| {
      ExtractIsFirst(v.items[i]);
      ExtractFirstIsFirst(v, i + 1);
      FirstOfBoth(Texts(v.items[i]), TextsFrom(v, i + 1));
    }
  }

  lemma {:induction false} ExtractKeysIsFirst(v: Value, keys: seq<string>)
    requires v.Object?
    ensures ExtractKeys(v, keys) == FirstDisplayable(TextsOfKeys(v, keys))
    decreases v, 0, |keys|
  {
    if keys != [] {
      var first := if keys[0] in v.fields then Texts(v.fields[keys[0]]) else [];
      if keys[0] in v.fields { ExtractIsFirst(v.fields[keys[0]]); }
      ExtractKeysIsFirst(v, keys[1..]);
      FirstOfBoth(first, TextsOfKeys(v, keys[1..]));
    }
  }

  lemma {:induction false} ExtractOutputsIsFirst(v: Value, i: nat)
    ensures ExtractOutputs(v, i) == FirstDisplayable(TextsOfOutputs(v, i))
    decreases v, 0, if v.Array? then |v.items| - i else 0
  {
    if v.Array? && i < |v.items| {
      ExtractOutputIsFirst(v.items[i]);
      ExtractOutputsIsFirst(v, i + 1);
      FirstOfBoth(TextsOfOutput(v.items[i]), TextsOfOutputs(v, i + 1));
    }
  }

  lemma {:induction false} ExtractOutputIsFirst(v: Value)
    ensures ExtractOutput(v) == FirstDisplayable(TextsOfOutput(v))
    decreases v, 1, 0
  {
    if v.Object? {
      var observed := if "observed_output" in v.fields then Texts(v.fields["observed_output"]) else [];
      if "observed_output" in v.fields { ExtractIsFirst(v.fields["observed_output"]); }
      StringsAreFirst(v, ["summary"]);
      FirstOfBoth(observed, StringsAt(v, ["summary"]));
    }
  }

  lemma {:induction false} FirstIsDisplayText(texts: seq<string>)
    ensures FirstDisplayable(texts).Some? ==> IsDisplayText(FirstDisplayable(texts).value)
    ensures FirstDisplayable(texts).None? <==> forall t :: t in texts ==> Trim(t) == "" || LooksLikeContract(Trim(t))
  {
    if texts != [] {
      FirstIsDisplayText(texts[1..]);
      assert texts == [texts[0]] + texts[1..];
    }
  }

  /**
   For every JSON value: a text that is found is trimmed, not empty and not contract-like itself, and
   none is found exactly when every text looked at is blank or contract-like.
   */
  lemma ExtractIsDisplayText(v: Value)
    ensures Extract(v).Some? ==> IsDisplayText(Extract(v).value)
    ensures Extract(v).None? <==> forall t :: t in Texts(v) ==> Trim(t) == "" || LooksLikeContract(Trim(t))
  {
    ExtractIsFirst(v);
    FirstIsDisplayText(Texts(v));
  }

  // ----- the marker -----

  function LowerByte(b: Byte): (r: Byte)
    ensures IsContinuation(r) <==> IsContinuation(b)
  {
    if 65 <= b <= 90 then b + 32 else b
  }

  lemma LowerCharBytes(c: char)
    ensures |EncodeChar(AsciiLower(c))| == |EncodeChar(c)|
    ensures forall i :: 0 <= i < Width(c) ==> EncodeChar(AsciiLower(c))[i] == LowerByte(EncodeChar(c)[i])
  {
  }

  /** Lowercasing works byte by byte: no character changes its width. */
  lemma {:induction false} LoweredBytes(s: string)
    ensures |Encode(Lowered(s))| == |Encode(s)|
    ensures forall i :: 0 <= i < |Encode(s)| ==> Encode(Lowered(s))[i] == LowerByte(Encode(s)[i])
  {
    if s != [] {
      LoweredBytes(s[1..]);
      LowerCharBytes(s[0]);
      assert Lowered(s)[1..] == Lowered(s[1..]);
    }
  }

  /** A byte string of ASCII characters only, like the markers. */
  predicate IsAscii(bytes: seq<Byte>) {
    forall i :: 0 <= i < |bytes| ==> bytes[i] < 0x80
  }

  /**
   The byte offset at which an ASCII marker is found in the lowercased copy is a character boundary of
   the original, so that slicing the original there does not panic.
   */
  lemma MarkerIsBoundary(text: string, marker: seq<Byte>, i: nat)
    requires marker != [] && IsAscii(marker)
    requires i + |marker| <= |Encode(Lowered(text))| && Encode(Lowered(text))[i..i + |marker|] == marker
    ensures i < |Encode(text)| && IsCharBoundary(Encode(text), i)
    ensures exists k :: 0 <= k <= |text| && i == Offset(text, k)
  {
    LoweredBytes(text);
    assert Encode(Lowered(text))[i] == marker[0];
    BoundaryIffCut(text, i);
    var k :| 0 <= k <= |text| && i == |Encode(text[..k])|;
    assert i == Offset(text, k);
  }

  /** The bytes of `needle` stand at `i`. */
  predicate BytesOccurAt(bytes: seq<Byte>, needle: seq<Byte>, i: nat) {
    i + |needle| <= |bytes| && bytes[i..i + |needle|] == needle
  }

  /** A text whose bytes begin with those of another begins with that other. */
  lemma {:induction false} PrefixDecodes(s: string, w: string, rest: seq<Byte>)
    requires Encode(s) == Encode(w) + rest
    ensures |w| <= |s| && s[..|w|] == w
  {
    if w != [] {
      AppendAssociates(EncodeChar(w[0]), Encode(w[1..]), rest);
      assert s != [];
      FirstChar(s[0], Encode(s[1..]), w[0], Encode(w[1..]) + rest);
      PrefixDecodes(s[1..], w[1..], rest);
      PrefixByFirst(s, w);
    }
  }

  lemma PrefixByFirst(s: string, w: string)
    requires s != [] && w != [] && s[0] == w[0] && |w| <= |s| && s[1..][..|w| - 1] == w[1..]
    ensures s[..|w|] == w
  {
    assert s[..|w|] == [s[0]] + s[1..][..|w| - 1] && w == [w[0]] + w[1..];
  }

  lemma SliceAt(bytes: seq<Byte>, needle: seq<Byte>, i: nat)
    requires i <= |bytes|
    ensures BytesOccurAt(bytes, needle, i) <==> exists rest :: bytes[i..] == needle + rest
  {
    var tail := bytes[i..];
    if BytesOccurAt(bytes, needle, i) {
      assert tail == tail[..|needle|] + tail[|needle|..] && tail[..|needle|] == bytes[i..i + |needle|];
    }
    if rest :| tail == needle + rest {
      assert tail[..|needle|] == needle && tail[..|needle|] == bytes[i..i + |needle|];
    }
  }

  /** A text occurs at a character exactly where its bytes occur at that character's offset. */
  lemma OccursIffBytes(s: string, w: string, k: nat)
    requires k <= |s|
    ensures OccursAt(s, w, k) <==> BytesOccurAt(Encode(s), Encode(w), Offset(s, k))
  {
    var tail := s[k..];
    CutAt(s, k);
    SliceAt(Encode(s), Encode(w), Offset(s, k));
    if OccursAt(s, w, k) {
      assert tail[..|w|] == s[k..k + |w|];
      EncodeSplit(tail, |w|);
    }
    if rest :| Encode(tail) == Encode(w) + rest {
      PrefixDecodes(tail, w, rest);
      assert tail[..|w|] == s[k..k + |w|];
    }
  }

  /** `find`: the first byte index at which the needle stands. */
  method FindBytes(bytes: seq<Byte>, needle: seq<Byte>) returns (r: Option<nat>)
    ensures IsFirstByte(bytes, needle, r)
  {
    for i := 0 to |bytes| + 1
      invariant forall j :: 0 <= j < i ==> !BytesOccurAt(bytes, needle, j)
    {
      if BytesOccurAt(bytes, needle, i) {
        return Some(i);
      }
    }
    return None;
  }

  ghost predicate IsFirstByte(bytes: seq<Byte>, needle: seq<Byte>, r: Option<nat>) {
    && (r.Some? ==> BytesOccurAt(bytes, needle, r.value))
    && forall j :: 0 <= j <= |bytes| && (r.Some? ==> j < r.value) ==> !BytesOccurAt(bytes, needle, j)
  }

  lemma LoweredOffset(text: string, k: nat)
    requires k <= |text|
    ensures Offset(Lowered(text), k) == Offset(text, k)
  {
    LoweredSlice(text, 0, k);
    LoweredBytes(text[..k]);
  }

  /**
   The search in bytes is the search in characters: an ASCII marker found in the lowercased bytes stands at the
   offset of the first character at which it occurs, and slicing the original bytes there gives the bytes of
   the characters before; it is found in the bytes exactly when it occurs in the characters.
   */
  lemma ByteSearchIsSearch(text: string, marker: string, r: Option<nat>)
    requires marker != "" && IsAscii(Encode(marker))
    requires IsFirstByte(Encode(Lowered(text)), Encode(marker), r)
    ensures var k := Find(Lowered(text), marker, 0);
            && (r.Some? <==> k.Some?)
            && (r.Some? ==> r.value == Offset(text, k.value) <= |Encode(text)|
                            && Encode(text)[..r.value] == Encode(text[..k.value]))
  {
    var s, k := Lowered(text), Find(Lowered(text), marker, 0);
    if r.Some? {
      MarkerIsBoundary(text, Encode(marker), r.value);
      var c :| 0 <= c <= |text| && r.value == Offset(text, c);
      LoweredOffset(text, c);
      OccursIffBytes(s, marker, c);
    }
    if k.Some? {
      OccursIffBytes(s, marker, k.value);
      LoweredOffset(text, k.value);
      LoweredBytes(text);
      CutAt(text, k.value);
      FirstsMeet(text, marker, r, k.value);
    }
  }

  /** The first byte occurrence is not behind the first character occurrence, and not before it. */
  lemma FirstsMeet(text: string, marker: string, r: Option<nat>, k: nat)
    requires marker != "" && IsAscii(Encode(marker)) && k <= |text|
    requires Find(Lowered(text), marker, 0) == Some(k)
    requires Offset(text, k) <= |Encode(Lowered(text))|
    requires BytesOccurAt(Encode(Lowered(text)), Encode(marker), Offset(text, k))
    requires IsFirstByte(Encode(Lowered(text)), Encode(marker), r)
    ensures r == Some(Offset(text, k))
  {
    MarkerIsBoundary(text, Encode(marker), r.value);
    var c :| 0 <= c <= |text| && r.value == Offset(text, c);
    LoweredOffset(text, c);
    OccursIffBytes(Lowered(text), marker, c);
    assert c >= k;
    OffsetMonotone(text, k, c);
  }

  // ----- run output -----

  /** The first occurrence of `needle`. */
  function Find(s: string, needle: string, from: nat): (r: Option<nat>)
    requires from <= |s|
    ensures r.Some? ==> from <= r.value <= |s| && OccursAt(s, needle, r.value)
    ensures forall j :: from <= j <= |s| && (r.Some? ==> j < r.value) ==> !OccursAt(s, needle, j)
    decreases |s| - from
  {
    if OccursAt(s, needle, from) then Some(from)
    else if from == |s| then None
    else Find(s, needle, from + 1)
  }

  function FindAny(s: string, needles: seq<string>): (r: Option<nat>)
    ensures r.Some? ==> r.value <= |s|
  {
    if needles == [] then None
    else
      var r := Find(s, needles[0], 0);
      if r.Some? then r else FindAny(s, needles[1..])
  }

  const MARKERS: seq<string> := ["output contract", "craik contract output", "**craik.", "craik."]

  /** `text_before_contract_marker`. */
  function TextBeforeMarker(t: string): Option<string> {
    var marker := FindAny(Lowered(t), MARKERS);
    if marker.None? then None
    else
      var prefix := Trim(t[..marker.value]);
      if prefix == "" || StartsWith(prefix, "{") || StartsWith(prefix, "[") || StartsWith(prefix, "```") then None
      else Some(prefix)
  }

  /** `run_output_transcript_text`; `parsed` is the JSON value found in the text, if any. */
  function RunOutputText(summary: string, parsed: Option<Value>): Option<string> {
    var trimmed := Trim(summary);
    if trimmed == "" then None
    else if !LooksLikeContract(trimmed) then Some(trimmed)
    else OrElse(if parsed.Some? then Extract(parsed.value) else None, TextBeforeMarker(trimmed))
  }

  /** What a run's output shows is trimmed, not empty, and neither JSON nor a fenced block. */
  lemma RunOutputIsReadable(summary: string, parsed: Option<Value>)
    ensures var r := RunOutputText(summary, parsed);
            r.Some? ==> Trimmed(r.value) && r.value != ""
                        && !StartsWith(r.value, "{") && !StartsWith(r.value, "[") && !StartsWith(r.value, "```")
    ensures Trim(summary) != "" && !LooksLikeContract(Trim(summary)) ==>
              RunOutputText(summary, parsed) == Some(Trim(summary))
  {
    if parsed.Some? { ExtractIsDisplayText(parsed.value); }
  }

  lemma {:induction false} AsciiEncodes(s: string)
    requires forall i :: 0 <= i < |s| ==> s[i] as int < 0x80
    ensures IsAscii(Encode(s))
  {
    if s != [] { AsciiEncodes(s[1..]); }
  }

  lemma MarkersAreAscii(i: nat)
    requires i < |MARKERS|
    ensures MARKERS[i] != "" && IsAscii(Encode(MARKERS[i]))
  {
    AsciiEncodes(MARKERS[i]);
  }

  /**
   The search of `text_before_contract_marker` as the source does it, in bytes: each marker in turn. The slice
   of the original at what it finds holds the bytes of the characters before the marker.
   */
  method MarkerInBytes(text: string) returns (r: Option<nat>)
    ensures var k := FindAny(Lowered(text), MARKERS);
            && (r.Some? <==> k.Some?)
            && (r.Some? ==> r.value == Offset(text, k.value) <= |Encode(text)|
                            && Encode(text)[..r.value] == Encode(text[..k.value]))
  {
    var lower := Encode(Lowered(text));
    for i := 0 to |MARKERS|
      invariant FindAny(Lowered(text), MARKERS) == FindAny(Lowered(text), MARKERS[i..])
    {
      MarkersAreAscii(i);
      r := FindBytes(lower, Encode(MARKERS[i]));
      ByteSearchIsSearch(text, MARKERS[i], r);
      if r.Some? {
        return;
      }
      assert MARKERS[i..][1..] == MARKERS[i + 1..];
    }
    return None;
  }

  // ----- when that text is display text -----

  /** What makes a text look like a contract wherever it stands, but for the first marker. */
  const REMAINING: seq<string> := ["craik contract output", "**craik.", "\"schema\""]

  predicate Mentions(t: string, words: seq<string>) {
    exists w :: w in words && Contains(Lowered(t), w)
  }

  /** The text is cut at a marker, and the part before it holds another one. */
  predicate MarkerBeforeMarker(t: string) {
    var marker := FindAny(Lowered(t), MARKERS);
    marker.Some? && Mentions(t[..marker.value], REMAINING)
  }

  lemma LoweredSlice(t: string, lo: nat, hi: nat)
    requires lo <= hi <= |t|
    ensures Lowered(t[lo..hi]) == Lowered(t)[lo..hi]
  {
  }

  lemma OccursInSlice(s: string, lo: nat, hi: nat, w: string, i: nat)
    requires lo <= i && i + |w| <= hi <= |s|
    ensures OccursAt(s[lo..hi], w, i - lo) <==> OccursAt(s, w, i)
  {
    SliceOfSlice(s, lo, hi, i - lo, i - lo + |w|);
  }

  /** A text with no blank at its ends. */
  predicate IsWord(w: string) {
    w != "" && !IsBlank(w[0]) && !IsBlank(w[|w| - 1])
  }

  predicate InsideBlanks(x: string, i: nat) {
    BlankHead(x, 0) <= i < BlankTail(x, |x|)
  }

  lemma EndsOfOccurrence(s: string, w: string, i: nat)
    requires w != "" && OccursAt(s, w, i)
    ensures s[i] == w[0] && s[i + |w| - 1] == w[|w| - 1]
  {
    assert s[i..i + |w|][0] == s[i] && s[i..i + |w|][|w| - 1] == s[i + |w| - 1];
  }

  lemma NotBlankIsInside(x: string, i: nat)
    requires i < |x| && !IsBlank(AsciiLower(x[i]))
    ensures InsideBlanks(x, i)
  {
    BlankStaysBlank(x[i]);
  }

  /** Where a word occurs, the text has no blank at its ends. */
  lemma WordBegins(x: string, w: string, i: nat)
    requires IsWord(w) && OccursAt(Lowered(x), w, i)
    ensures InsideBlanks(x, i)
  {
    EndsOfOccurrence(Lowered(x), w, i);
    NotBlankIsInside(x, i);
  }

  lemma WordEnds(x: string, w: string, i: nat)
    requires IsWord(w) && OccursAt(Lowered(x), w, i)
    ensures InsideBlanks(x, i + |w| - 1)
  {
    EndsOfOccurrence(Lowered(x), w, i);
    NotBlankIsInside(x, i + |w| - 1);
  }

  lemma BlankStaysBlank(c: char)
    ensures IsBlank(AsciiLower(c)) <==> IsBlank(c)
  {
  }

  lemma WordIsKept(x: string, w: string, i: nat)
    requires IsWord(w) && OccursAt(Lowered(x), w, i)
    ensures Contains(Lowered(Trim(x)), w)
  {
    var s, lo, hi := Lowered(x), BlankHead(x, 0), BlankTail(x, |x|);
    WordBegins(x, w, i);
    WordEnds(x, w, i);
    LoweredSlice(x, lo, hi);
    OccursInSlice(s, lo, hi, w, i);
  }

  lemma TrimKeepsWord(x: string, w: string)
    requires IsWord(w)
    ensures Contains(Lowered(Trim(x)), w) <==> Contains(Lowered(x), w)
  {
    if i :| 0 <= i <= |Lowered(x)| && OccursAt(Lowered(x), w, i) {
      WordIsKept(x, w, i);
    }
    if i :| 0 <= i <= |Lowered(Trim(x))| && OccursAt(Lowered(Trim(x)), w, i) {
      KeptWord(x, w, i);
    }
  }

  lemma KeptWord(x: string, w: string, i: nat)
    requires IsWord(w) && OccursAt(Lowered(Trim(x)), w, i)
    ensures Contains(Lowered(x), w)
  {
    var s, lo, hi := Lowered(x), BlankHead(x, 0), BlankTail(x, |x|);
    LoweredSlice(x, lo, hi);
    OccursInSlice(s, lo, hi, w, lo + i);
  }

  /** Before the marker that is found there is no "output contract", the marker looked for first. */
  lemma FirstMarkerIsFirst(t: string)
    requires FindAny(Lowered(t), MARKERS).Some?
    ensures !Contains(Lowered(t[..FindAny(Lowered(t), MARKERS).value]), "output contract")
  {
    var s, k := Lowered(t), FindAny(Lowered(t), MARKERS).value;
    var first := Find(s, MARKERS[0], 0);
    LoweredSlice(t, 0, k);
    if Contains(Lowered(t[..k]), "output contract") {
      var i :| 0 <= i <= k && OccursAt(s[..k], "output contract", i);
      OccursInSlice(s, 0, k, "output contract", i);
    }
  }

  lemma ReadableLooksLike(p: string)
    requires !StartsWith(p, "{") && !StartsWith(p, "[") && !StartsWith(p, "```")
    ensures LooksLikeContract(p) <==> Mentions(p, REMAINING) || Contains(Lowered(p), "output contract")
  {
    assert REMAINING[0] in REMAINING && REMAINING[1] in REMAINING && REMAINING[2] in REMAINING;
  }

  lemma TrimKeepsMentions(x: string)
    ensures Mentions(Trim(x), REMAINING) <==> Mentions(x, REMAINING)
  {
    forall w | w in REMAINING ensures Contains(Lowered(Trim(x)), w) <==> Contains(Lowered(x), w) {
      TrimKeepsWord(x, w);
    }
  }

  lemma TextBeforeMarkerIsDisplayText(t: string)
    requires TextBeforeMarker(t).Some?
    ensures IsDisplayText(TextBeforeMarker(t).value) <==> !MarkerBeforeMarker(t)
  {
    var before := t[..FindAny(Lowered(t), MARKERS).value];
    ReadableLooksLike(Trim(before));
    TrimKeepsMentions(before);
    TrimKeepsWord(before, "output contract");
    FirstMarkerIsFirst(t);
  }

  /** The output looks like a contract, and no text was found in its JSON. */
  predicate FallsBackToMarker(summary: string, parsed: Option<Value>) {
    LooksLikeContract(Trim(summary)) && (parsed.None? || Extract(parsed.value).None?)
  }

  /**
   What a run's output shows is display text, like everything found in JSON, if and only if it is not
   what stands before a marker that another marker precedes.
   */
  lemma RunOutputIsDisplayText(summary: string, parsed: Option<Value>)
    requires RunOutputText(summary, parsed).Some?
    ensures IsDisplayText(RunOutputText(summary, parsed).value)
            <==> !(FallsBackToMarker(summary, parsed) && MarkerBeforeMarker(Trim(summary)))
  {
    if FallsBackToMarker(summary, parsed) {
      TextBeforeMarkerIsDisplayText(Trim(summary));
    } else if parsed.Some? {
      ExtractIsDisplayText(parsed.value);
    }
  }

  /** The first occurrence is what the search finds. */
  lemma FindIs(s: string, needle: string, k: nat)
    requires needle != "" && OccursAt(s, needle, k) && forall j :: 0 <= j < k ==> s[j] != needle[0]
    ensures Find(s, needle, 0) == Some(k)
  {
    forall j | 0 <= j < k ensures !OccursAt(s, needle, j) {
      if j + |needle| <= |s| { assert s[j..j + |needle|][0] == s[j]; }
    }
    assert k <= |s|;
  }

  lemma TrimBeforeSpace(p: string)
    requires IsWord(p)
    ensures Trim(p + " ") == p && Trim(p) == p
  {
    var x := p + " ";
    assert x[0] == p[0] && x[|p| - 1] == p[|p| - 1] && IsBlank(x[|p|]);
    assert BlankHead(x, 0) == 0 && BlankTail(x, |x|) == |p|;
    assert x[0..|p|] == p;
  }

  const MARKED := "output contract"

  lemma MarkedIsLower()
    ensures IsWord(MARKED) && MARKED[0] == 'o' && Lowered(MARKED) == MARKED
  {
  }

  lemma MarkedOccurs(p: string, m: string)
    requires Lowered(m) == m && m != "" && forall i :: 0 <= i < |p| ==> AsciiLower(p[i]) != m[0]
    ensures Find(Lowered(p + m), m, 0) == Some(|p|) && Contains(Lowered(p + m), m)
  {
    var s, k := Lowered(p + m), |p|;
    assert s[k..k + |m|] == Lowered(m);
    FindIs(s, m, k);
  }

  lemma MarkedText(p: string)
    requires IsWord(p) && forall i :: 0 <= i < |p| ==> AsciiLower(p[i]) != 'o'
    ensures var t := p + " " + MARKED;
            && IsWord(t) && FindAny(Lowered(t), MARKERS) == Some(|p| + 1) && t[..|p| + 1] == p + " "
            && Contains(Lowered(t), MARKED)
  {
    MarkedIsLower();
    MarkedOccurs(p + " ", MARKED);
    var t := p + " " + MARKED;
    assert t[0] == p[0] && t[|t| - 1] == MARKED[|MARKED| - 1];
  }

  /**
   Such outputs: any word that mentions "schema" in quotes, like that word itself, in front of a marker.
   It is shown although it looks like a contract itself.
   */
  lemma MarkerBeforeMarkerShows(p: string)
    requires IsWord(p) && forall i :: 0 <= i < |p| ==> AsciiLower(p[i]) != 'o'
    requires !StartsWith(p, "{") && !StartsWith(p, "[") && !StartsWith(p, "```")
    requires Contains(Lowered(p), "\"schema\"")
    ensures RunOutputText(p + " " + MARKED, None) == Some(p) && !IsDisplayText(p)
  {
    MarkedText(p);
    TrimBeforeSpace(p);
  }

  // ----- the order of the search, key by key -----

  /** What is found in the value under a key. */
  function Found(v: Value, key: string): Option<string> {
    if Get(v, key).Some? then Extract(Get(v, key).value) else None
  }

  /** What the string under a key shows. */
  function Shown(v: Value, key: string): Option<string> {
    if GetStr(v, key).Some? then Displayable(GetStr(v, key).value) else None
  }

  /** The first that is there. */
  function FirstSome(texts: seq<Option<string>>): Option<string> {
    if texts == [] then None else OrElse(texts[0], FirstSome(texts[1..]))
  }

  lemma {:induction false} KeysFound(v: Value, keys: seq<string>, found: seq<Option<string>>)
    requires v.Object? && |found| == |keys| && forall i :: 0 <= i < |keys| ==> found[i] == Found(v, keys[i])
    ensures ExtractKeys(v, keys) == FirstSome(found)
  {
    if keys != [] { KeysFound(v, keys[1..], found[1..]); }
  }

  lemma {:induction false} KeysShown(v: Value, keys: seq<string>, shown: seq<Option<string>>)
    requires |shown| == |keys| && forall i :: 0 <= i < |keys| ==> shown[i] == Shown(v, keys[i])
    ensures DisplayableKeys(v, keys) == FirstSome(shown)
  {
    if keys != [] { KeysShown(v, keys[1..], shown[1..]); }
  }

  /** What one recorded output gives: what was observed, or else its summary. */
  function Recorded(output: Value): Option<string> {
    FirstSome([Found(output, "observed_output"), Shown(output, "summary")])
  }

  /** What the recorded outputs give. */
  function AllRecorded(v: Value): seq<Option<string>> {
    match Get(v, "run_outputs")
    case Some(Array(items)) => seq(|items|, i requires 0 <= i < |items| => Recorded(items[i]))
    case _ => []
  }

  lemma OutputRecorded(output: Value)
    ensures ExtractOutput(output) == Recorded(output)
  {
    var a, b := Found(output, "observed_output"), Shown(output, "summary");
    assert [a, b][1..] == [b] && [b][1..] == [];
    KeysShown(output, ["summary"], [b]);
  }

  lemma {:induction false} OutputsRecorded(v: Value, i: nat, recorded: seq<Option<string>>)
    requires v.Array? && i <= |v.items| && |recorded| == |v.items|
    requires forall k :: 0 <= k < |recorded| ==> recorded[k] == Recorded(v.items[k])
    ensures ExtractOutputs(v, i) == FirstSome(recorded[i..])
    decreases |v.items| - i
  {
    if i < |v.items| {
      OutputRecorded(v.items[i]);
      OutputsRecorded(v, i + 1, recorded);
      assert recorded[i..][1..] == recorded[i + 1..];
    }
  }

  /**
   The order of an object: what is found under "observed_output", "payload" and "output", then the recorded
   outputs one by one, then the content, then the strings, a final answer before all others.
   */
  lemma KeysInOrder(v: Value)
    requires v.Object?
    ensures Extract(v) ==
            OrElse(FirstSome([Found(v, "observed_output"), Found(v, "payload"), Found(v, "output")]),
                   OrElse(FirstSome(AllRecorded(v)),
                          OrElse(Found(v, "content"),
                                 FirstSome([Shown(v, "final_answer"), Shown(v, "answer"), Shown(v, "text"),
                                            Shown(v, "response"), Shown(v, "result"), Shown(v, "summary"),
                                            Shown(v, "message")]))))
  {
    NestedFound(v);
    StringsShown(v);
    RecordedFound(v);
  }

  lemma NestedFound(v: Value)
    requires v.Object?
    ensures ExtractKeys(v, NESTED_KEYS)
            == FirstSome([Found(v, "observed_output"), Found(v, "payload"), Found(v, "output")])
  {
    KeysFound(v, NESTED_KEYS, [Found(v, "observed_output"), Found(v, "payload"), Found(v, "output")]);
  }

  lemma StringsShown(v: Value)
    ensures DisplayableKeys(v, TEXT_KEYS)
            == FirstSome([Shown(v, "final_answer"), Shown(v, "answer"), Shown(v, "text"), Shown(v, "response"),
                          Shown(v, "result"), Shown(v, "summary"), Shown(v, "message")])
  {
    KeysShown(v, TEXT_KEYS, [Shown(v, "final_answer"), Shown(v, "answer"), Shown(v, "text"), Shown(v, "response"),
                             Shown(v, "result"), Shown(v, "summary"), Shown(v, "message")]);
  }

  lemma RecordedFound(v: Value)
    requires v.Object?
    ensures (if "run_outputs" in v.fields then ExtractOutputs(v.fields["run_outputs"], 0) else None)
            == FirstSome(AllRecorded(v))
  {
    if "run_outputs" in v.fields && v.fields["run_outputs"].Array? {
      OutputsRecorded(v.fields["run_outputs"], 0, AllRecorded(v));
      assert AllRecorded(v)[0..] == AllRecorded(v);
    }
  }

  /** A phrase of the contracts hides the text around it, however it is capitalized. */
  lemma PhraseHides(before: string, phrase: string, behind: string)
    requires Lowered(phrase) in ["output contract", "craik contract output", "**craik.", "\"schema\""]
    ensures LooksLikeContract(before + phrase + behind)
    ensures Displayable(before + phrase + behind).None?
  {
    PhraseOccurs(before, phrase, behind);
    TrimKeepsWord(before + phrase + behind, Lowered(phrase));
  }

  lemma PhraseOccurs(before: string, phrase: string, behind: string)
    ensures Contains(Lowered(before + phrase + behind), Lowered(phrase))
  {
    var s, i := Lowered(before + phrase + behind), |before|;
    assert s[i..i + |phrase|] == Lowered(phrase);
    assert OccursAt(s, Lowered(phrase), i);
  }

  /** What stands before the first "output contract" is what a text with it shows, if anything. */
  lemma ShownBeforePhrase(before: string, phrase: string, behind: string)
    requires Lowered(phrase) == "output contract" && Trim(before) != ""
    requires !Contains(Lowered(before + phrase[..|phrase| - 1]), "output contract")
    requires !StartsWith(Trim(before), "{") && !StartsWith(Trim(before), "[") && !StartsWith(Trim(before), "```")
    ensures TextBeforeMarker(before + phrase + behind) == Some(Trim(before))
  {
    var t := before + phrase + behind;
    FirstPhrase(before, phrase, behind);
    FoundFirst(Lowered(t), MARKERS, |before|);
    assert t[..|before|] == before;
  }

  lemma FoundFirst(s: string, needles: seq<string>, k: nat)
    requires needles != [] && Find(s, needles[0], 0) == Some(k)
    ensures FindAny(s, needles) == Some(k)
  {
  }

  lemma FirstPhrase(before: string, phrase: string, behind: string)
    requires Lowered(phrase) == "output contract"
    requires !Contains(Lowered(before + phrase[..|phrase| - 1]), "output contract")
    ensures Find(Lowered(before + phrase + behind), "output contract", 0) == Some(|before|)
  {
    var s := Lowered(before + phrase + behind);
    PhraseAt(before, phrase, behind);
    forall i | 0 <= i < |before| ensures !OccursAt(s, "output contract", i) {
      if OccursAt(s, "output contract", i) { PhraseEarlier(before, phrase, behind, i); }
    }
    FoundAt(s, "output contract", |before|);
  }

  lemma FoundAt(s: string, needle: string, k: nat)
    requires OccursAt(s, needle, k) && forall i :: 0 <= i < k ==> !OccursAt(s, needle, i)
    ensures Find(s, needle, 0) == Some(k)
  {
  }

  lemma PhraseAt(before: string, phrase: string, behind: string)
    ensures OccursAt(Lowered(before + phrase + behind), Lowered(phrase), |before|)
  {
    var s, i := Lowered(before + phrase + behind), |before|;
    assert s[i..i + |phrase|] == Lowered(phrase);
  }

  lemma PhraseEarlier(before: string, phrase: string, behind: string, i: nat)
    requires i < |before| && |phrase| == 15
    requires OccursAt(Lowered(before + phrase + behind), "output contract", i)
    ensures Contains(Lowered(before + phrase[..|phrase| - 1]), "output contract")
  {
    var t, head := before + phrase + behind, before + phrase[..|phrase| - 1];
    assert head == t[..|head|];
    LoweredSlice(t, 0, |head|);
    OccursInSlice(Lowered(t), 0, |head|, "output contract", i);
    assert OccursAt(Lowered(head), "output contract", i);
  }

  function Either(a: Option<nat>, b: Option<nat>): Option<nat> {
    if a.Some? then a else b
  }

  /** The four markers are looked for in this order, each in the whole text. */
  lemma MarkersInOrder(s: string)
    ensures FindAny(s, MARKERS)
            == Either(Find(s, "output contract", 0),
                      Either(Find(s, "craik contract output", 0),
                             Either(Find(s, "**craik.", 0), Find(s, "craik.", 0))))
  {
    var c, d := ["**craik.", "craik."], ["craik."];
    var b := ["craik contract output", "**craik.", "craik."];
    assert MARKERS == ["output contract"] + b && b == ["craik contract output"] + c && c == ["**craik."] + d;
    FoundNext(s, "output contract", b);
    FoundNext(s, "craik contract output", c);
    FoundNext(s, "**craik.", d);
    FoundNext(s, "craik.", []);
    assert d == ["craik."] + [];
  }

  lemma FoundNext(s: string, needle: string, others: seq<string>)
    ensures FindAny(s, [needle] + others) == Either(Find(s, needle, 0), FindAny(s, others))
  {
    assert ([needle] + others)[1..] == others;
  }
}
