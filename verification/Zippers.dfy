/**
 What the prompt editor means: a text and a gap between two of its characters. Every editing
 key of the source is one function on such zippers; the laws below say what those functions
 do to the text as a user sees it, as rows and columns of characters.
 */
module Zippers {
  import opened Prelude
  import opened Whitespace

  datatype RawZipper = Zipper(text: string, at: nat) {
    function Before(): string
      requires at <= |text|
    {
      text[..at]
    }

    function After(): string
      requires at <= |text|
    {
      text[at..]
    }
  }

  type Zipper = z: RawZipper | z.at <= |z.text| witness Zipper([], 0)

  /** Where the row that holds position `p` starts: after the last newline before `p`. */
  function LineStart(t: string, p: nat): (k: nat)
    requires p <= |t|
    ensures k <= p && (k == 0 || t[k - 1] == '\n')
    ensures forall i :: k <= i < p ==> t[i] != '\n'
  {
    if p == 0 || t[p - 1] == '\n' then p else LineStart(t, p - 1)
  }

  /** Where that row ends: at the first newline from `p` on. */
  function LineEnd(t: string, p: nat): (k: nat)
    requires p <= |t|
    ensures p <= k <= |t| && (k == |t| || t[k] == '\n')
    ensures forall i :: p <= i < k ==> t[i] != '\n'
    decreases |t| - p
  {
    if p == |t| || t[p] == '\n' then p else LineEnd(t, p + 1)
  }

  /** The text with the characters `i` to `j` replaced. */
  function Replaced(t: string, i: nat, j: nat, s: string): string
    requires i <= j <= |t|
  {
    t[..i] + s + t[j..]
  }

  /** Remove the characters from `from` up to the cursor. */
  function CutBefore(z: Zipper, from: nat): Zipper
    requires from <= z.at
  {
    Zipper(Replaced(z.text, from, z.at, []), from)
  }

  /** Remove the characters from the cursor up to `to`. */
  function CutAfter(z: Zipper, to: nat): Zipper
    requires z.at <= to <= |z.text|
  {
    Zipper(Replaced(z.text, z.at, to, []), z.at)
  }

  function Insert(z: Zipper, s: string): Zipper {
    Zipper(Replaced(z.text, z.at, z.at, s), z.at + |s|)
  }

  function Backspace(z: Zipper): Zipper {
    if z.at == 0 then z else CutBefore(z, z.at - 1)
  }

  function Delete(z: Zipper): Zipper {
    if z.at == |z.text| then z else CutAfter(z, z.at + 1)
  }

  function Left(z: Zipper): Zipper {
    if z.at == 0 then z else z.(at := z.at - 1)
  }

  function Right(z: Zipper): Zipper {
    if z.at == |z.text| then z else z.(at := z.at + 1)
  }

  function Home(z: Zipper): Zipper {
    z.(at := LineStart(z.text, z.at))
  }

  function End(z: Zipper): Zipper {
    z.(at := LineEnd(z.text, z.at))
  }

  /** Ctrl-U. */
  function KillToStart(z: Zipper): Zipper {
    CutBefore(z, LineStart(z.text, z.at))
  }

  /** Ctrl-K. */
  function KillToEnd(z: Zipper): Zipper {
    CutAfter(z, LineEnd(z.text, z.at))
  }

  /** Ctrl-W. */
  function KillWord(z: Zipper): Zipper {
    CutBefore(z, WordStart(z.text, BlankTail(z.text, z.at)))
  }

  /** A column of the row that ends at `n`, or the row's end. */
  function InRowEndingAt(t: string, n: nat, col: nat): (p: nat)
    requires n <= |t|
    ensures p <= n
  {
    LineStart(t, n) + Min(col, n - LineStart(t, n))
  }

  /** A column of the row that starts at `n`, or the row's end. */
  function InRowFrom(t: string, n: nat, col: nat): (p: nat)
    requires n <= |t|
    ensures p <= |t|
  {
    n + Min(col, LineEnd(t, n) - n)
  }

  function UpAt(t: string, p: nat): (q: nat)
    requires p <= |t|
    ensures q <= |t|
  {
    var start := LineStart(t, p);
    if start == 0 then p else InRowEndingAt(t, start - 1, p - start)
  }

  function DownAt(t: string, p: nat): (q: nat)
    requires p <= |t|
    ensures q <= |t|
  {
    var end := LineEnd(t, p);
    if end == |t| then p else InRowFrom(t, end + 1, p - LineStart(t, p))
  }

  function Up(z: Zipper): Zipper {
    z.(at := UpAt(z.text, z.at))
  }

  function Down(z: Zipper): Zipper {
    z.(at := DownAt(z.text, z.at))
  }

  /** Esc, or a submitted prompt. */
  function Clear(z: Zipper): Zipper {
    Zipper([], 0)
  }

  /** History recall and palette completion: another text, the cursor behind it. */
  function Recall(z: Zipper, s: string): Zipper {
    Zipper(s, |s|)
  }

  // ----- rows and columns -----

  /** The row of a position: the newlines before it. */
  function Row(t: string, p: nat): nat
    requires p <= |t|
  {
    if p == 0 then 0 else Row(t, p - 1) + (if t[p - 1] == '\n' then 1 else 0)
  }

  /** The column of a position: the characters between the last newline and it. */
  function Col(t: string, p: nat): (c: nat)
    requires p <= |t|
    ensures c <= p && (c == p || t[p - c - 1] == '\n')
    ensures forall i :: p - c <= i < p ==> t[i] != '\n'
  {
    if p == 0 || t[p - 1] == '\n' then 0 else 1 + Col(t, p - 1)
  }

  /** `t[from..to]` is row number `r` of the text. */
  ghost predicate IsRow(t: string, r: nat, from: nat, to: nat) {
    && from <= to <= |t|
    && Row(t, from) == r
    && (from == 0 || t[from - 1] == '\n')
    && (to == |t| || t[to] == '\n')
    && forall i :: from <= i < to ==> t[i] != '\n'
  }

  lemma {:induction false} RowMonotone(t: string, p: nat, q: nat)
    requires p <= q <= |t|
    ensures Row(t, p) <= Row(t, q)
    ensures (forall i :: p <= i < q ==> t[i] != '\n') ==> Row(t, p) == Row(t, q)
    ensures (exists i :: p <= i < q && t[i] == '\n') ==> Row(t, p) < Row(t, q)
    decreases q
  {
    if p < q { RowMonotone(t, p, q - 1); }
  }

  /** A text has at most one row of each number. */
  lemma RowUnique(t: string, r: nat, from: nat, to: nat, from': nat, to': nat)
    requires IsRow(t, r, from, to) && IsRow(t, r, from', to')
    ensures from == from' && to == to'
  {
    if from <= from' {
      RowMonotone(t, from, from');
    } else {
      RowMonotone(t, from', from);
    }
  }

  /** Every position lies in its row, at its column. */
  lemma PositionInRow(t: string, p: nat)
    requires p <= |t|
    ensures IsRow(t, Row(t, p), LineStart(t, p), LineEnd(t, p))
    ensures p == LineStart(t, p) + Col(t, p)
  {
    RowMonotone(t, LineStart(t, p), p);
  }

  /** Text, row and column determine the cursor, so the movement lemmas below leave nothing open. */
  lemma PositionUnique(t: string, p: nat, q: nat)
    requires p <= |t| && q <= |t| && Row(t, p) == Row(t, q) && Col(t, p) == Col(t, q)
    ensures p == q
  {
    PositionInRow(t, p);
    PositionInRow(t, q);
    RowUnique(t, Row(t, p), LineStart(t, p), LineEnd(t, p), LineStart(t, q), LineEnd(t, q));
  }

  /** A position inside a known row. */
  lemma PositionAtRow(t: string, r: nat, from: nat, to: nat, p: nat)
    requires IsRow(t, r, from, to) && from <= p <= to
    ensures Row(t, p) == r && Col(t, p) == p - from
    ensures LineStart(t, p) == from && LineEnd(t, p) == to
  {
    RowMonotone(t, from, p);
    PositionInRow(t, p);
    RowUnique(t, r, from, to, LineStart(t, p), LineEnd(t, p));
  }

  /** The row that starts after a newline is one below the row that newline ends. */
  lemma RowAfterNewline(t: string, n: nat)
    requires n < |t| && t[n] == '\n'
    ensures Row(t, n + 1) == Row(t, n) + 1
    ensures IsRow(t, Row(t, n), LineStart(t, n), n)
    ensures IsRow(t, Row(t, n) + 1, n + 1, LineEnd(t, n + 1))
  {
    PositionInRow(t, n);
  }

  lemma RowAbove(t: string, p: nat, from: nat, to: nat)
    requires p <= |t| && Row(t, p) > 0 && IsRow(t, Row(t, p) - 1, from, to)
    ensures LineStart(t, p) == to + 1 && LineStart(t, to) == from && Col(t, p) == p - to - 1
  {
    var start := LineStart(t, p);
    PositionInRow(t, p);
    RowAfterNewline(t, start - 1);
    RowUnique(t, Row(t, p) - 1, LineStart(t, start - 1), start - 1, from, to);
  }

  lemma RowBelow(t: string, p: nat, from: nat, to: nat)
    requires p <= |t| && Row(t, p) < Row(t, |t|) && IsRow(t, Row(t, p) + 1, from, to)
    ensures LineEnd(t, p) + 1 == from && LineEnd(t, from) == to
  {
    var end := LineEnd(t, p);
    RowMonotone(t, p, end);
    assert end < |t|;
    RowAfterNewline(t, end);
    RowUnique(t, Row(t, p) + 1, end + 1, LineEnd(t, end + 1), from, to);
  }

  lemma {:induction false} SomewhereInRow(t: string, r: nat, p: nat) returns (q: nat)
    requires p <= |t| && r <= Row(t, p)
    ensures q <= p && Row(t, q) == r
  {
    if r == Row(t, p) { q := p; } else { q := SomewhereInRow(t, r, p - 1); }
  }

  /** Every row number up to the last has a row, so the two movement laws below leave no case open. */
  lemma RowExists(t: string, r: nat)
    requires r <= Row(t, |t|)
    ensures exists from, to :: IsRow(t, r, from, to)
  {
    var q := SomewhereInRow(t, r, |t|);
    PositionInRow(t, q);
  }

  lemma {:induction false} FirstRowStart(t: string, p: nat)
    requires p <= |t|
    ensures Row(t, p) == 0 <==> LineStart(t, p) == 0
  {
    if p > 0 && t[p - 1] != '\n' { FirstRowStart(t, p - 1); }
  }

  /** On the first row Up stays. */
  lemma UpOnFirstRow(z: Zipper)
    requires Row(z.text, z.at) == 0
    ensures Up(z) == z
  {
    FirstRowStart(z.text, z.at);
  }

  /** Otherwise Up goes to the row above, in the same column or at that row's end. */
  lemma UpMovesOneRow(z: Zipper, from: nat, to: nat)
    requires Row(z.text, z.at) > 0 && IsRow(z.text, Row(z.text, z.at) - 1, from, to)
    ensures Up(z).text == z.text
    ensures Row(z.text, Up(z).at) == Row(z.text, z.at) - 1
    ensures Col(z.text, Up(z).at) == Min(Col(z.text, z.at), to - from)
  {
    RowAbove(z.text, z.at, from, to);
    PositionAtRow(z.text, Row(z.text, z.at) - 1, from, to, Up(z).at);
  }

  /** On the last row Down stays. */
  lemma DownOnLastRow(z: Zipper)
    requires Row(z.text, z.at) == Row(z.text, |z.text|)
    ensures Down(z) == z
  {
    var end := LineEnd(z.text, z.at);
    RowMonotone(z.text, z.at, end);
    if end < |z.text| {
      RowAfterNewline(z.text, end);
      RowMonotone(z.text, end + 1, |z.text|);
    }
  }

  lemma DownTarget(z: Zipper, from: nat, to: nat)
    requires LineEnd(z.text, z.at) + 1 == from <= |z.text| && LineEnd(z.text, from) == to
    ensures Down(z) == z.(at := from + Min(Col(z.text, z.at), to - from))
  {
    PositionInRow(z.text, z.at);
  }

  /** Otherwise Down goes to the row below, in the same column or at that row's end. */
  lemma DownMovesOneRow(z: Zipper, from: nat, to: nat)
    requires Row(z.text, z.at) < Row(z.text, |z.text|) && IsRow(z.text, Row(z.text, z.at) + 1, from, to)
    ensures Down(z).text == z.text
    ensures Row(z.text, Down(z).at) == Row(z.text, z.at) + 1
    ensures Col(z.text, Down(z).at) == Min(Col(z.text, z.at), to - from)
  {
    RowBelow(z.text, z.at, from, to);
    DownTarget(z, from, to);
    PositionAtRow(z.text, Row(z.text, z.at) + 1, from, to, Down(z).at);
  }

  /** Down undoes Up exactly when the row above was long enough to keep the column. */
  lemma DownUndoesUp(z: Zipper, from: nat, to: nat)
    requires Row(z.text, z.at) > 0 && IsRow(z.text, Row(z.text, z.at) - 1, from, to)
    ensures Down(Up(z)) == z <==> Col(z.text, z.at) <= to - from
  {
    UpMovesOneRow(z, from, to);
    DownFromAbove(z.text, Row(z.text, z.at) - 1, Up(z), z.at);
    if Down(Up(z)).at == z.at {
      assert Down(Up(z)) == z;
    }
  }

  /** Going down from row `r`, `q` in the row below is reached exactly from a column it can keep. */
  lemma DownFromAbove(t: string, r: nat, u: Zipper, q: nat)
    requires u.text == t && Row(t, u.at) == r && q <= |t| && Row(t, q) == r + 1
    requires Col(t, u.at) <= Col(t, q)
    ensures Down(u).text == t
    ensures Down(u).at == q <==> Col(t, u.at) == Col(t, q)
  {
    PositionInRow(t, q);
    RowMonotone(t, q, |t|);
    DownMovesOneRow(u, LineStart(t, q), LineEnd(t, q));
    if Col(t, u.at) == Col(t, q) {
      PositionUnique(t, Down(u).at, q);
    }
  }

  /** Home and End keep the text and reach the two ends of the cursor's row. */
  lemma HomeEndReachRowEnds(z: Zipper, from: nat, to: nat)
    requires IsRow(z.text, Row(z.text, z.at), from, to)
    ensures Home(z) == Zipper(z.text, from) && End(z) == Zipper(z.text, to)
  {
    PositionInRow(z.text, z.at);
    RowUnique(z.text, Row(z.text, z.at), from, to, LineStart(z.text, z.at), LineEnd(z.text, z.at));
  }

  /** The two kills remove exactly what Home and End move over. */
  lemma KillsMatchMoves(z: Zipper)
    ensures KillToStart(z).Before() == Home(z).Before() && KillToStart(z).After() == z.After()
    ensures KillToEnd(z).Before() == z.Before() && KillToEnd(z).After() == End(z).After()
  {
  }

  /** Backspace undoes a typed character, and deleting after a step left is backspacing. */
  lemma EditsUndo(z: Zipper, c: char)
    ensures Backspace(Insert(z, [c])) == z
    ensures z.at > 0 ==> Delete(Left(z)) == Backspace(z) && Right(Left(z)) == z
    ensures z.at > 0 ==> Insert(Backspace(z), [z.text[z.at - 1]]) == z
    ensures z.at < |z.text| ==> Left(Right(z)) == z
  {
    assert Backspace(Insert(z, [c])).text == z.text;
    if z.at > 0 {
      assert Insert(Backspace(z), [z.text[z.at - 1]]).text == z.text;
    }
  }

  /**
   What Ctrl-W removes is `t[w..p]`: the blanks just before the cursor, from `e` on, and the one
   word before them.
   */
  ghost predicate IsLastWord(t: string, p: nat, w: nat, e: nat) {
    && w <= e <= p <= |t|
    && (forall i :: w <= i < e ==> !IsBlank(t[i]))
    && (forall i :: e <= i < p ==> IsBlank(t[i]))
    && (w == e ==> w == 0)
    && (w == 0 || IsBlank(t[w - 1]))
  }

  /** Ctrl-W removes that word and those blanks, whatever split into word and blanks one finds. */
  lemma KillWordRemovesLastWord(z: Zipper, w: nat, e: nat)
    requires IsLastWord(z.text, z.at, w, e)
    ensures KillWord(z).Before() == z.text[..w] && KillWord(z).After() == z.After()
  {
    assert e > 0 ==> !IsBlank(z.text[e - 1]);
    assert BlankTail(z.text, z.at) == e;
    assert WordStart(z.text, e) == w;
  }

  /** There is always such a split. */
  lemma LastWordExists(t: string, p: nat)
    requires p <= |t|
    ensures exists w, e :: IsLastWord(t, p, w, e)
  {
    assert IsLastWord(t, p, WordStart(t, BlankTail(t, p)), BlankTail(t, p));
  }
}
