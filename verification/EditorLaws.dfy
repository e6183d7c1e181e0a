/** What each editing key does to the text before and behind the cursor. */
module EditorLaws {
  import opened Prelude
  import opened Zippers
  import opened Editor

  /** The text before the cursor and the text behind it. */
  ghost predicate Stands(z: Zipper, before: string, after: string) {
    z.Before() == before && z.After() == after
  }

  /** Both texts determine the zipper, so the laws below leave nothing open. */
  lemma StandsOnce(y: Zipper, z: Zipper)
    requires Stands(y, z.Before(), z.After())
    ensures y == z
  {
    assert y.text == y.Before() + y.After() && z.text == z.Before() + z.After();
  }

  /** What is typed or pasted goes between the two texts, and the cursor behind it. */
  lemma InsertStands(z: Zipper, s: string)
    ensures Stands(Apply(z, Paste(s)), z.Before() + s, z.After())
  {
  }

  lemma TypingStands(z: Zipper, c: char)
    ensures Stands(Apply(z, TypeChar(c)), z.Before() + [c], z.After())
    ensures Stands(Apply(z, Newline), z.Before() + "\n", z.After())
  {
  }

  /** Erasing takes one character from one of the two texts; at the end of the text it takes none. */
  lemma EraseStands(z: Zipper)
    ensures Stands(Apply(z, EraseBack), if z.at == 0 then [] else z.Before()[..z.at - 1], z.After())
    ensures Stands(Apply(z, EraseForward), z.Before(), if z.After() == [] then [] else z.After()[1..])
  {
  }

  /** The arrows move one character from one text to the other. */
  lemma ArrowsStand(z: Zipper)
    ensures z.at > 0 ==> Stands(Apply(z, MoveLeft), z.Before()[..z.at - 1], [z.text[z.at - 1]] + z.After())
    ensures z.After() != [] ==> Stands(Apply(z, MoveRight), z.Before() + [z.After()[0]], z.After()[1..])
    ensures z.at == 0 ==> Apply(z, MoveLeft) == z
    ensures z.After() == [] ==> Apply(z, MoveRight) == z
  {
  }

  /** Clearing and recalling. */
  lemma RecallStands(z: Zipper, s: string)
    ensures Stands(Apply(z, ClearAll), [], []) && Stands(Apply(z, RecallText(s)), s, [])
  {
  }

  /** Home and End put the whole row behind or before the cursor, and the two kills drop what they pass over. */
  lemma RowKeysStand(z: Zipper, from: nat, to: nat)
    requires IsRow(z.text, Row(z.text, z.at), from, to)
    ensures Stands(Apply(z, MoveHome), z.text[..from], z.text[from..])
    ensures Stands(Apply(z, MoveEnd), z.text[..to], z.text[to..])
    ensures Stands(Apply(z, CutToStart), z.text[..from], z.After())
    ensures Stands(Apply(z, CutToEnd), z.Before(), z.text[to..])
  {
    HomeEndReachRowEnds(z, from, to);
    KillsMatchMoves(z);
  }

  /** The row keys go one row up or down, in the same column or at that row's end, and stay at the last one. */
  lemma UpKey(z: Zipper, from: nat, to: nat)
    ensures Apply(z, MoveUp).text == z.text && (Row(z.text, z.at) == 0 ==> Apply(z, MoveUp) == z)
    ensures Row(z.text, z.at) > 0 && IsRow(z.text, Row(z.text, z.at) - 1, from, to) ==>
              Apply(z, MoveUp).at == from + Min(Col(z.text, z.at), to - from)
  {
    if Row(z.text, z.at) == 0 {
      UpOnFirstRow(z);
    } else if IsRow(z.text, Row(z.text, z.at) - 1, from, to) {
      RowAbove(z.text, z.at, from, to);
    }
  }

  lemma DownKey(z: Zipper, from: nat, to: nat)
    ensures Apply(z, MoveDown).text == z.text
    ensures Row(z.text, z.at) == Row(z.text, |z.text|) ==> Apply(z, MoveDown) == z
    ensures Row(z.text, z.at) < Row(z.text, |z.text|) && IsRow(z.text, Row(z.text, z.at) + 1, from, to) ==>
              Apply(z, MoveDown).at == from + Min(Col(z.text, z.at), to - from)
  {
    if Row(z.text, z.at) == Row(z.text, |z.text|) { DownOnLastRow(z); }
    if Row(z.text, z.at) < Row(z.text, |z.text|) && IsRow(z.text, Row(z.text, z.at) + 1, from, to) {
      RowBelow(z.text, z.at, from, to);
      DownTarget(z, from, to);
    }
  }

  /** Ctrl-W drops the last word before the cursor and the blanks behind it. */
  lemma WordKeyStands(z: Zipper, w: nat, e: nat)
    requires IsLastWord(z.text, z.at, w, e)
    ensures Stands(Apply(z, CutWord), z.text[..w], z.After())
  {
    KillWordRemovesLastWord(z, w, e);
  }

  // ----- a paste is its characters -----

  function Typed(s: string): seq<Edit> {
    seq(|s|, i requires 0 <= i < |s| => TypeChar(s[i]))
  }

  function Erasing(n: nat): seq<Edit> {
    seq(n, i requires 0 <= i < n => EraseBack)
  }

  lemma ApplyAllSnoc(z: Zipper, edits: seq<Edit>, e: Edit)
    ensures ApplyAll(z, edits + [e]) == Apply(ApplyAll(z, edits), e)
  {
    InitOfSnoc(edits, e);
  }

  lemma InsertMore(z: Zipper, s: string, c: char)
    ensures Insert(Insert(z, s), [c]) == Insert(z, s + [c])
  {
    var y := Insert(z, s);
    InsertStands(z, s);
    InsertStands(y, [c]);
    InsertStands(z, s + [c]);
    AppendAssociates(z.Before(), s, [c]);
    StandsOnce(Insert(y, [c]), Insert(z, s + [c]));
  }

  lemma InsertNothing(z: Zipper)
    ensures Insert(z, []) == z
  {
    InsertStands(z, []);
    EmptyAppend(z.Before());
    StandsOnce(Insert(z, []), z);
  }

  /** Pasting a text is typing its characters one by one, wherever the cursor stands. */
  lemma {:induction false} PasteIsTyping(z: Zipper, s: string)
    ensures ApplyAll(z, Typed(s)) == Apply(z, Paste(s))
    decreases |s|
  {
    if s == [] {
      InsertNothing(z);
    } else {
      var before, c := LastApart(s);
      PasteIsTyping(z, before);
      assert Typed(s) == Typed(before) + [TypeChar(c)];
      ApplyAllSnoc(z, Typed(before), TypeChar(c));
      InsertMore(z, before, c);
    }
  }

  lemma EraseOne(z: Zipper, s: string, c: char)
    ensures Backspace(Insert(z, s + [c])) == Insert(z, s)
  {
    InsertMore(z, s, c);
    EditsUndo(Insert(z, s), c);
  }

  /** As many backspaces take back the last characters of a paste. */
  lemma {:induction false} ErasingPaste(z: Zipper, s: string, n: nat)
    requires n <= |s|
    ensures ApplyAll(Apply(z, Paste(s)), Erasing(n)) == Apply(z, Paste(s[..|s| - n]))
    decreases n
  {
    if n == 0 {
      assert s[..|s|] == s;
    } else {
      var kept, c := s[..|s| - n], s[|s| - n];
      ErasingPaste(z, s, n - 1);
      OneMoreErased(s, n);
      ApplyAllSnoc(Apply(z, Paste(s)), Erasing(n - 1), EraseBack);
      EraseOne(z, kept, c);
    }
  }

  lemma OneMoreErased(s: string, n: nat)
    requires 0 < n <= |s|
    ensures s[..|s| - (n - 1)] == s[..|s| - n] + [s[|s| - n]] && Erasing(n) == Erasing(n - 1) + [EraseBack]
  {
  }

  /** So a paste, and a backspace for each of its characters, leave everything as it was. */
  lemma ErasingUndoesPaste(z: Zipper, s: string)
    ensures ApplyAll(Apply(z, Paste(s)), Erasing(|s|)) == z
  {
    ErasingPaste(z, s, |s|);
    assert s[..0] == [];
    InsertNothing(z);
  }
}
