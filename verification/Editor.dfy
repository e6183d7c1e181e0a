/**
 The prompt editor of `InteractiveApp`: a UTF-8 buffer, a byte cursor, and methods that scan
 bytes. Each method refines one function of module `Zippers`.
 */
module Editor {
  import opened Prelude
  import opened Utf8
  import opened Whitespace
  import opened Zippers

  // ----- newlines and edits in the bytes -----

  /** No newline byte between two positions with no newline character between them. */
  lemma {:induction false} NoNewlineBetween(t: string, a: nat, b: nat)
    requires a <= b <= |t| && forall i :: a <= i < b ==> t[i] != '\n'
    ensures Offset(t, b) <= |Encode(t)|
    ensures forall i :: Offset(t, a) <= i < Offset(t, b) ==> Encode(t)[i] != 10
  {
    CutAt(t, b);
    if a < b {
      NoNewlineBetween(t, a, b - 1);
      CharAt(t, b - 1);
      CharHasNoNewline(t[b - 1]);
    }
  }

  lemma CharHasNoNewline(c: char)
    requires c != '\n'
    ensures forall i :: 0 <= i < Width(c) ==> EncodeChar(c)[i] != 10
  {
  }

  /** The newline byte of a newline character. */
  lemma NewlineAt(t: string, k: nat)
    requires k < |t| && t[k] == '\n'
    ensures Offset(t, k + 1) == Offset(t, k) + 1 <= |Encode(t)| && Encode(t)[Offset(t, k)] == 10
  {
    CharAt(t, k);
  }

  /** Replacing characters replaces the bytes between their offsets. */
  lemma ReplaceBytes(t: string, i: nat, j: nat, s: string)
    requires i <= j <= |t|
    ensures Offset(t, i) <= Offset(t, j) <= |Encode(t)|
    ensures Encode(Replaced(t, i, j, s)) == Encode(t)[..Offset(t, i)] + Encode(s) + Encode(t)[Offset(t, j)..]
    ensures Offset(Replaced(t, i, j, s), i + |s|) == Offset(t, i) + |Encode(s)|
    ensures Offset(Replaced(t, i, j, s), i) == Offset(t, i)
  {
    OffsetMonotone(t, i, j);
    CutAt(t, i);
    CutAt(t, j);
    var r := Replaced(t, i, j, s);
    EncodeAppend(t[..i], s);
    EncodeAppend(t[..i] + s, t[j..]);
    assert r[..i + |s|] == t[..i] + s;
    assert r[..i] == t[..i];
  }

  // ----- the string primitives the editor is written with -----

  /**
   `String::insert`, `insert_str` and `replace_range`: the bytes `lo..hi` replaced. Rust panics
   unless both ends are character boundaries.
   */
  function Splice(bytes: seq<Byte>, lo: nat, hi: nat, middle: seq<Byte>): seq<Byte>
    requires lo <= hi <= |bytes| && IsCharBoundary(bytes, lo) && IsCharBoundary(bytes, hi)
  {
    bytes[..lo] + middle + bytes[hi..]
  }

  /** `input[..cursor].char_indices().last()`: back over the continuation bytes of one character. */
  method LastCharIndex(bytes: seq<Byte>, cursor: nat, ghost t: string, ghost k: nat) returns (i: nat)
    requires bytes == Encode(t) && 0 < k <= |t| && cursor == Offset(t, k)
    ensures i == Offset(t, k - 1) && i < |bytes|
    ensures i + WidthOfLead(bytes[i]) == cursor <= |bytes|
    ensures CodePointAt(bytes, i) == t[k - 1] as int
  {
    CharAt(t, k - 1);
    i := cursor - 1;
    while IsContinuation(bytes[i])
      invariant Offset(t, k - 1) <= i < cursor
      decreases i
    {
      i := i - 1;
    }
  }

  /** `input[..cursor].rfind('\n')`, plus one, or zero. */
  method RowStart(bytes: seq<Byte>, cursor: nat, ghost t: string, ghost p: nat) returns (start: nat)
    requires bytes == Encode(t) && p <= |t| && cursor == Offset(t, p)
    ensures start == Offset(t, LineStart(t, p)) <= cursor <= |bytes|
  {
    ghost var k := LineStart(t, p);
    OffsetMonotone(t, k, p);
    OffsetMonotone(t, p, |t|);
    NoNewlineBetween(t, k, p);
    OffsetEnds(t);
    if k > 0 { NewlineAt(t, k - 1); }
    start := cursor;
    while start > 0 && bytes[start - 1] != 10
      invariant Offset(t, k) <= start <= cursor
    {
      start := start - 1;
    }
  }

  /** `input[cursor..].find('\n')`, or the end of the input. */
  method RowEnd(bytes: seq<Byte>, cursor: nat, ghost t: string, ghost p: nat) returns (end: nat)
    requires bytes == Encode(t) && p <= |t| && cursor == Offset(t, p)
    ensures cursor <= end == Offset(t, LineEnd(t, p)) <= |bytes|
    ensures end < |bytes| <==> LineEnd(t, p) < |t|
    ensures end < |bytes| ==> Offset(t, LineEnd(t, p) + 1) == end + 1
  {
    ghost var k := LineEnd(t, p);
    OffsetMonotone(t, p, k);
    NoNewlineBetween(t, p, k);
    OffsetEnds(t);
    if k < |t| { NewlineAt(t, k); }
    end := cursor;
    while end < |bytes| && bytes[end] != 10
      invariant cursor <= end <= Offset(t, k)
    {
      end := end + 1;
    }
  }

  /** `input[from..to].chars().count()`. */
  method CharCount(bytes: seq<Byte>, from: nat, to: nat, ghost t: string, ghost a: nat, ghost b: nat)
    returns (n: nat)
    requires bytes == Encode(t) && a <= b <= |t| && from == Offset(t, a) && to == Offset(t, b)
    ensures n == b - a
  {
    var i := from;
    n := 0;
    OffsetMonotone(t, a, b);
    while i < to
      invariant n <= b - a && i == Offset(t, a + n) <= to <= |bytes|
    {
      CharAt(t, a + n);
      OffsetMonotone(t, a + n + 1, b);
      i := i + WidthOfLead(bytes[i]);
      n := n + 1;
    }
    OffsetMonotone(t, a + n, b);
  }

  /** `byte_index_for_char_col`: the byte index of a column of a row, or the row's end. */
  method ByteIndexForCharCol(bytes: seq<Byte>, start: nat, end: nat, col: nat,
                             ghost t: string, ghost a: nat, ghost b: nat) returns (i: nat)
    requires bytes == Encode(t) && a <= b <= |t| && start == Offset(t, a) && end == Offset(t, b)
    ensures i == Offset(t, a + Min(col, b - a))
  {
    i := start;
    var n := 0;
    OffsetMonotone(t, a, b);
    while i < end && n < col
      invariant n <= col && n <= b - a && i == Offset(t, a + n) <= end <= |bytes|
    {
      CharAt(t, a + n);
      OffsetMonotone(t, a + n + 1, b);
      i := i + WidthOfLead(bytes[i]);
      n := n + 1;
    }
    OffsetMonotone(t, a + n, b);
  }

  /** Where such a scan stops. */
  ghost function ScanStop(t: string, p: nat, blanks: bool): (k: nat)
    requires p <= |t|
    ensures k <= p && (k > 0 ==> IsBlank(t[k - 1]) != blanks)
    ensures forall i :: k <= i < p ==> IsBlank(t[i]) == blanks
  {
    if blanks then BlankTail(t, p) else WordStart(t, p)
  }

  /**
   The reverse scans of `delete_previous_word`: back over characters while `IsBlank` agrees with
   `blanks`.
   */
  method ScanBack(bytes: seq<Byte>, cursor: nat, blanks: bool, ghost t: string, ghost p: nat) returns (i: nat)
    requires bytes == Encode(t) && p <= |t| && cursor == Offset(t, p)
    ensures i == Offset(t, ScanStop(t, p, blanks))
    ensures i <= cursor
  {
    ghost var k, stop := p, ScanStop(t, p, blanks);
    i := cursor;
    OffsetEnds(t);
    while i > 0
      invariant stop <= k <= p && i == Offset(t, k) <= cursor
    {
      OffsetMonotone(t, 0, k);
      assert k > 0;
      var j := LastCharIndex(bytes, i, t, k);
      if IsBlankCode(CodePointAt(bytes, j)) != blanks {
        return;
      }
      i := j;
      k := k - 1;
    }
    OffsetMonotone(t, stop, k);
  }

  method CurrentLineStartAndCol(bytes: seq<Byte>, cursor: nat, ghost t: string, ghost p: nat)
    returns (start: nat, col: nat)
    requires bytes == Encode(t) && p <= |t| && cursor == Offset(t, p)
    ensures start == Offset(t, LineStart(t, p)) && col == p - LineStart(t, p)
    ensures start == 0 <==> LineStart(t, p) == 0
  {
    start := RowStart(bytes, cursor, t, p);
    col := CharCount(bytes, start, cursor, t, LineStart(t, p), p);
    OffsetMonotone(t, 0, LineStart(t, p));
    OffsetEnds(t);
  }

  /** Where `move_cursor_up_line` puts the byte cursor. */
  method IndexOneRowUp(bytes: seq<Byte>, cursor: nat, ghost t: string, ghost p: nat) returns (i: nat)
    requires bytes == Encode(t) && p <= |t| && cursor == Offset(t, p)
    ensures i == Offset(t, UpAt(t, p))
  {
    var start, col := CurrentLineStartAndCol(bytes, cursor, t, p);
    if start == 0 {
      return cursor;
    }
    NewlineAt(t, LineStart(t, p) - 1);
    i := IndexInRowBefore(bytes, start - 1, col, t, LineStart(t, p) - 1);
  }

  /** The column `col` of the row that ends at position `n`. */
  method IndexInRowBefore(bytes: seq<Byte>, end: nat, col: nat, ghost t: string, ghost n: nat) returns (i: nat)
    requires bytes == Encode(t) && n <= |t| && end == Offset(t, n)
    ensures i == Offset(t, InRowEndingAt(t, n, col))
  {
    var start := RowStart(bytes, end, t, n);
    i := ByteIndexForCharCol(bytes, start, end, col, t, LineStart(t, n), n);
  }

  /** The column `col` of the row that starts at position `n`. */
  method IndexInRowAfter(bytes: seq<Byte>, start: nat, col: nat, ghost t: string, ghost n: nat) returns (i: nat)
    requires bytes == Encode(t) && n <= |t| && start == Offset(t, n)
    ensures i == Offset(t, InRowFrom(t, n, col))
  {
    var end := RowEnd(bytes, start, t, n);
    i := ByteIndexForCharCol(bytes, start, end, col, t, n, LineEnd(t, n));
  }

  /** The end of the cursor's row, looked for from the row's start as the source does. */
  method CurrentRowEnd(bytes: seq<Byte>, start: nat, ghost t: string, ghost p: nat) returns (end: nat)
    requires bytes == Encode(t) && p <= |t| && start == Offset(t, LineStart(t, p))
    ensures end == Offset(t, LineEnd(t, p)) <= |bytes|
    ensures end < |bytes| <==> LineEnd(t, p) < |t|
    ensures end < |bytes| ==> Offset(t, LineEnd(t, p) + 1) == end + 1
  {
    LineEndFromStart(t, p);
    end := RowEnd(bytes, start, t, LineStart(t, p));
  }

  lemma LineEndFromStart(t: string, p: nat)
    requires p <= |t|
    ensures LineEnd(t, LineStart(t, p)) == LineEnd(t, p)
  {
  }

  /** Where `move_cursor_down_line` puts the byte cursor. */
  method IndexOneRowDown(bytes: seq<Byte>, cursor: nat, ghost t: string, ghost p: nat) returns (i: nat)
    requires bytes == Encode(t) && p <= |t| && cursor == Offset(t, p)
    ensures i == Offset(t, DownAt(t, p))
  {
    var start, col := CurrentLineStartAndCol(bytes, cursor, t, p);
    var end := CurrentRowEnd(bytes, start, t, p);
    if end >= |bytes| {
      return cursor;
    }
    i := IndexInRowAfter(bytes, end + 1, col, t, LineEnd(t, p) + 1);
  }

  /** One editing key or paste. `Recall` stands for history and palette completion, which set a whole text. */
  datatype Edit =
    | TypeChar(ch: char) | Newline | Paste(pasted: string)
    | EraseBack | EraseForward
    | MoveLeft | MoveRight | MoveHome | MoveEnd | MoveUp | MoveDown
    | CutToStart | CutToEnd | CutWord
    | ClearAll | RecallText(recalled: string)

  /** What one edit means. */
  function Apply(z: Zipper, e: Edit): Zipper {
    match e
    case TypeChar(ch) => Insert(z, [ch])
    case Newline => Insert(z, "\n")
    case Paste(s) => Insert(z, s)
    case EraseBack => Backspace(z)
    case EraseForward => Delete(z)
    case MoveLeft => Left(z)
    case MoveRight => Right(z)
    case MoveHome => Home(z)
    case MoveEnd => End(z)
    case MoveUp => Up(z)
    case MoveDown => Down(z)
    case CutToStart => KillToStart(z)
    case CutToEnd => KillToEnd(z)
    case CutWord => KillWord(z)
    case ClearAll => Clear(z)
    case RecallText(s) => Recall(z, s)
  }

  function ApplyAll(z: Zipper, edits: seq<Edit>): Zipper
    decreases |edits|
  {
    if edits == [] then z else Apply(ApplyAll(z, edits[..|edits| - 1]), edits[|edits| - 1])
  }

  /** The fields of `InteractiveApp` that the editor owns. */
  class PromptEditor {
    var input: seq<Byte>
    var inputCursor: nat
    var slashSelectedIndex: nat
    ghost var view: Zipper

    /** The buffer holds the text of the view, and the byte cursor stands at its gap. */
    ghost predicate Valid()
      reads this
    {
      input == Encode(view.text) && inputCursor == Offset(view.text, view.at)
    }

    constructor ()
      ensures Valid() && view == Zipper([], 0) && input == [] && inputCursor == 0
    {
      input, inputCursor, slashSelectedIndex := [], 0, 0;
      view := Zipper([], 0);
    }

    /** The cursor is always a legal slice position of the buffer. */
    lemma CursorIsBoundary()
      requires Valid()
      ensures inputCursor <= |input| && IsCharBoundary(input, inputCursor)
    {
      CutAt(view.text, view.at);
    }

    /** `input.replace_range`, the cursor going to `cursor`, the palette selection back to the top. */
    method ReplaceRange(lo: nat, hi: nat, middle: seq<Byte>, cursor: nat, ghost i: nat, ghost j: nat, ghost s: string)
      requires Valid()
      requires i <= j <= |view.text| && lo == Offset(view.text, i) && hi == Offset(view.text, j)
      requires middle == Encode(s)
      requires cursor == lo + |middle|
      modifies this
      ensures Valid() && slashSelectedIndex == 0
      ensures view == Zipper(Replaced(old(view.text), i, j, s), i + |s|)
    {
      CutAt(view.text, i);
      CutAt(view.text, j);
      ReplaceBytes(view.text, i, j, s);
      input := Splice(input, lo, hi, middle);
      inputCursor := cursor;
      slashSelectedIndex := 0;
      view := Zipper(Replaced(view.text, i, j, s), i + |s|);
    }

    method InsertChar(ch: char)
      requires Valid()
      modifies this
      ensures Valid() && view == Insert(old(view), [ch]) && slashSelectedIndex == 0
    {
      EncodeSnoc([], ch);
      assert [] + [ch] == [ch];
      ReplaceRange(inputCursor, inputCursor, EncodeChar(ch), inputCursor + Width(ch), view.at, view.at, [ch]);
    }

    method InsertNewline()
      requires Valid()
      modifies this
      ensures Valid() && view == Insert(old(view), "\n") && slashSelectedIndex == 0
    {
      InsertChar('\n');
    }

    method PasteText(text: string)
      requires Valid()
      modifies this
      ensures Valid() && view == Insert(old(view), text)
      ensures slashSelectedIndex == if text == [] then old(slashSelectedIndex) else 0
    {
      if text == [] {
        assert Insert(view, text).text == view.text;
        return;
      }
      var bytes := Encode(text);
      ReplaceRange(inputCursor, inputCursor, bytes, inputCursor + |bytes|, view.at, view.at, text);
    }

    method ClearInput()
      modifies this
      ensures Valid() && view == Zipper([], 0) && slashSelectedIndex == 0
    {
      input, inputCursor, slashSelectedIndex := [], 0, 0;
      view := Zipper([], 0);
    }

    /** The common tail of history recall and completion: `input = text; input_cursor = input.len()`. */
    method SetInput(text: string)
      modifies this`input, this`inputCursor, this`view
      ensures Valid() && view == Recall(old(view), text)
    {
      input := Encode(text);
      inputCursor := |input|;
      view := Zipper(text, |text|);
      OffsetEnds(text);
    }

    method EraseBackward()
      requires Valid()
      modifies this
      ensures Valid() && view == Backspace(old(view))
    {
      if inputCursor == 0 {
        OffsetMonotone(view.text, 0, view.at);
        return;
      }
      OffsetEnds(view.text);
      var i := LastCharIndex(input, inputCursor, view.text, view.at);
      ReplaceRange(i, inputCursor, [], i, view.at - 1, view.at, []);
    }

    method EraseForward()
      requires Valid()
      modifies this
      ensures Valid() && view == Delete(old(view))
    {
      OffsetEnds(view.text);
      OffsetMonotone(view.text, view.at, |view.text|);
      if inputCursor >= |input| {
        return;
      }
      CharAt(view.text, view.at);
      var next := inputCursor + WidthOfLead(input[inputCursor]);
      ReplaceRange(inputCursor, next, [], inputCursor, view.at, view.at + 1, []);
    }

    method MoveCursorLeft()
      requires Valid()
      modifies this`inputCursor, this`view
      ensures Valid() && view == Left(old(view))
    {
      if inputCursor == 0 {
        OffsetMonotone(view.text, 0, view.at);
        return;
      }
      OffsetEnds(view.text);
      inputCursor := LastCharIndex(input, inputCursor, view.text, view.at);
      view := Left(view);
    }

    method MoveCursorRight()
      requires Valid()
      modifies this`inputCursor, this`view
      ensures Valid() && view == Right(old(view))
    {
      OffsetEnds(view.text);
      OffsetMonotone(view.text, view.at, |view.text|);
      if inputCursor >= |input| {
        return;
      }
      CharAt(view.text, view.at);
      inputCursor := inputCursor + WidthOfLead(input[inputCursor]);
      view := Right(view);
    }

    method MoveCursorHome()
      requires Valid()
      modifies this`inputCursor, this`view
      ensures Valid() && view == Home(old(view))
    {
      inputCursor := RowStart(input, inputCursor, view.text, view.at);
      view := Home(view);
    }

    method MoveCursorEnd()
      requires Valid()
      modifies this`inputCursor, this`view
      ensures Valid() && view == End(old(view))
    {
      inputCursor := RowEnd(input, inputCursor, view.text, view.at);
      view := End(view);
    }

    method DeleteToLineStart()
      requires Valid()
      modifies this
      ensures Valid() && view == KillToStart(old(view)) && slashSelectedIndex == 0
    {
      var start := RowStart(input, inputCursor, view.text, view.at);
      ReplaceRange(start, inputCursor, [], start, LineStart(view.text, view.at), view.at, []);
    }

    method DeleteToLineEnd()
      requires Valid()
      modifies this
      ensures Valid() && view == KillToEnd(old(view)) && slashSelectedIndex == 0
    {
      var end := RowEnd(input, inputCursor, view.text, view.at);
      ReplaceRange(inputCursor, end, [], inputCursor, view.at, LineEnd(view.text, view.at), []);
    }

    method DeletePreviousWord()
      requires Valid()
      modifies this
      ensures Valid() && view == KillWord(old(view))
    {
      if inputCursor == 0 {
        OffsetMonotone(view.text, 0, view.at);
        assert Replaced(view.text, 0, 0, []) == view.text;
        return;
      }
      ghost var e := BlankTail(view.text, view.at);
      var trimEnd := ScanBack(input, inputCursor, true, view.text, view.at);
      var start := ScanBack(input, trimEnd, false, view.text, e);
      ReplaceRange(start, inputCursor, [], start, WordStart(view.text, e), view.at, []);
    }

    method MoveCursorUpLine()
      requires Valid()
      modifies this`inputCursor, this`view
      ensures Valid() && view == Up(old(view))
    {
      inputCursor := IndexOneRowUp(input, inputCursor, view.text, view.at);
      view := Up(view);
    }

    method MoveCursorDownLine()
      requires Valid()
      modifies this`inputCursor, this`view
      ensures Valid() && view == Down(old(view))
    {
      inputCursor := IndexOneRowDown(input, inputCursor, view.text, view.at);
      view := Down(view);
    }

    /** One key, routed to its method. */
    method Perform(e: Edit)
      requires Valid()
      modifies this
      ensures Valid() && view == Apply(old(view), e)
    {
      match e
      case TypeChar(ch) => InsertChar(ch);
      case Newline => InsertNewline();
      case Paste(s) => PasteText(s);
      case EraseBack => EraseBackward();
      case EraseForward => EraseForward();
      case MoveLeft => MoveCursorLeft();
      case MoveRight => MoveCursorRight();
      case MoveHome => MoveCursorHome();
      case MoveEnd => MoveCursorEnd();
      case MoveUp => MoveCursorUpLine();
      case MoveDown => MoveCursorDownLine();
      case CutToStart => DeleteToLineStart();
      case CutToEnd => DeleteToLineEnd();
      case CutWord => DeletePreviousWord();
      case ClearAll => ClearInput();
      case RecallText(s) => SetInput(s);
    }

    /**
     Every run of keys: no slice panics, the bytes stay the encoding of a text, the cursor stays
     on a character boundary, and text and cursor are those of the zipper run.
     */
    method Run(edits: seq<Edit>)
      requires Valid()
      modifies this
      ensures Valid() && view == ApplyAll(old(view), edits)
      ensures inputCursor <= |input| && IsCharBoundary(input, inputCursor)
    {
      for n := 0 to |edits|
        invariant Valid() && view == ApplyAll(old(view), edits[..n])
      {
        assert edits[..n + 1][..n] == edits[..n];
        Perform(edits[n]);
      }
      assert edits[..|edits|] == edits;
      CursorIsBoundary();
    }
  }
}
