/** The six-cell one-time-code entry shared by the email-verification page
    and the password-reset page (their handlers are the same code). Each
    `<input maxLength="1">` is a cell holding a string of at most one
    character; `focus` is the index of the focused cell. */
module OtpInput {

  const CellCount: nat := 6
  /** A paste uses at most this many characters of the clipboard text. */
  const PasteLimit: nat := 6

  /** `getData("text").slice(0, 6)`. */
  function PastePrefix(clip: string): (p: string)
    ensures |p| == if |clip| < PasteLimit then |clip| else PasteLimit
    ensures p == clip[..|p|]
  {
    if |clip| <= PasteLimit then clip else clip[..PasteLimit]
  }

  /** The cells after writing `chars[i]` into cell i for every i below
      `|chars|` that has a cell, in order. */
  function Pasted(cells: seq<string>, chars: string): (r: seq<string>)
    ensures |r| == |cells|
    ensures forall i :: 0 <= i < |r| ==> r[i] == if i < |chars| then [chars[i]] else cells[i]
    decreases |chars|
  {
    if chars == [] then cells
    else
      var k := |chars| - 1;
      var w := Pasted(cells, chars[..k]);
      if k < |w| then w[k := [chars[k]]] else w
  }

  /** `map((el) => el.value).join("")`: the cell values in index order. */
  function Join(cells: seq<string>): string {
    if cells == [] then "" else cells[0] + Join(cells[1..])
  }

  /** Joining one-character cells spells out their characters. */
  lemma {:induction false} JoinSingletons(cells: seq<string>, s: string)
    requires |cells| == |s|
    requires forall i :: 0 <= i < |cells| ==> cells[i] == [s[i]]
    ensures Join(cells) == s
  {
    if cells != [] {
      JoinSingletons(cells[1..], s[1..]);
    }
  }

  /** With at most one character per cell, the joined code has one
      character per cell exactly when no cell is empty. */
  lemma {:induction false} JoinFull(cells: seq<string>)
    requires forall i :: 0 <= i < |cells| ==> |cells[i]| <= 1
    ensures |Join(cells)| <= |cells|
    ensures |Join(cells)| == |cells| <==> forall i :: 0 <= i < |cells| ==> |cells[i]| == 1
  {
    if cells != [] {
      JoinFull(cells[1..]);
      assert forall i :: 1 <= i < |cells| ==> cells[i] == cells[1..][i - 1];
    }
  }

  /** Pasting six or more characters into the six cells makes the joined
      code the first six characters of the clipboard text. */
  lemma PasteThenJoin(cells: seq<string>, clip: string)
    requires |cells| == CellCount && |clip| >= PasteLimit
    ensures Join(Pasted(cells, PastePrefix(clip))) == clip[..CellCount]
  {
    JoinSingletons(Pasted(cells, PastePrefix(clip)), clip[..CellCount]);
  }

  /** `handleInput`: focus moves to the next cell when the edited cell is
      non-empty and is not the last one; otherwise it stays. */
  function FocusAfterInput(value: string, index: nat, count: nat, focus: nat): (f: nat)
    requires index < count && focus < count
    ensures f < count
    ensures f != focus ==> f == index + 1
    ensures f == index + 1 <== |value| > 0 && index < count - 1
    ensures f == focus <== !(|value| > 0 && index < count - 1)
  {
    if |value| > 0 && index < count - 1 then index + 1 else focus
  }

  /** `handleKeyDown`: focus moves to the previous cell when the key is
      Backspace, the cell is empty and it is not the first; otherwise it
      stays. */
  function FocusAfterKeyDown(key: string, value: string, index: nat, count: nat, focus: nat): (f: nat)
    requires index < count && focus < count
    ensures f < count
    ensures f != focus ==> f + 1 == index
    ensures f + 1 == index <== key == "Backspace" && value == "" && index > 0
    ensures f == focus <== !(key == "Backspace" && value == "" && index > 0)
  {
    if key == "Backspace" && value == "" && index > 0 then index - 1 else focus
  }

  class OtpWidget {
    var cells: array<string>
    var focus: nat

    ghost predicate Valid()
      reads this, cells
    {
      && cells.Length == CellCount
      && focus < cells.Length
      && forall i :: 0 <= i < cells.Length ==> |cells[i]| <= 1
    }

    /** Six empty cells. */
    constructor ()
      ensures Valid() && fresh(cells) && focus == 0
      ensures forall i :: 0 <= i < cells.Length ==> cells[i] == ""
    {
      cells := new string[CellCount](_ => "");
      focus := 0;
    }

    /** The browser's own edit of cell `index` (at most one character, by
        `maxLength`); it is followed by an input event. */
    method Type(index: nat, value: string)
      requires Valid() && index < cells.Length && |value| <= 1
      modifies cells
      ensures Valid() && cells[..] == old(cells[..])[index := value]
    {
      cells[index] := value;
    }

    method HandleInput(index: nat)
      requires Valid() && index < cells.Length
      modifies this`focus
      ensures Valid() && focus == FocusAfterInput(cells[index], index, cells.Length, old(focus))
    {
      if |cells[index]| > 0 && index < cells.Length - 1 {
        focus := index + 1;
      }
    }

    method HandleKeyDown(index: nat, key: string)
      requires Valid() && index < cells.Length
      modifies this`focus
      ensures Valid() && focus == FocusAfterKeyDown(key, cells[index], index, cells.Length, old(focus))
    {
      if key == "Backspace" && cells[index] == "" && index > 0 {
        focus := index - 1;
      }
    }

    /** `handlePaste`: the browser's own paste is prevented; character i of
        the clipboard prefix goes into cell i, cell by cell. Setting a value
        from script fires no input event, so focus does not move. */
    method HandlePaste(clip: string)
      requires Valid()
      modifies cells
      ensures Valid() && cells[..] == Pasted(old(cells[..]), PastePrefix(clip))
    {
      var pasteArray := PastePrefix(clip);
      var index := 0;
      while index < |pasteArray|
        invariant 0 <= index <= |pasteArray|
        invariant cells[..] == Pasted(old(cells[..]), pasteArray[..index])
      {
        assert pasteArray[..index + 1][..index] == pasteArray[..index];
        if index < cells.Length {
          cells[index] := [pasteArray[index]];
        }
        index := index + 1;
      }
      assert pasteArray[..index] == pasteArray;
    }
  }
}
