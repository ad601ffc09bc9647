/** The text-input element's editing state: the string, the caret, the
    selection anchor and the undo history, changed by property setters and by
    key and mouse events. The text-editing helpers it calls (insertion,
    deletion, word navigation) are not part of this model and are passed in as
    functions; the decoding of key codes and modifier keys is an input. */
module TextInputModel {
  import opened Common

  // ---------------------------------------------------------------------
  // The editing state as a value, and the setters on it

  datatype Editor = Editor(str: string, cursor: int, selection: int, history: seq<string>)

  predicate NoAdjacentRepeats(h: seq<string>)
  {
    forall j :: 0 <= j < |h| - 1 ==> h[j] != h[j + 1]
  }

  /** The history is never empty, ends with the current string and never
      repeats an entry twice in a row. */
  predicate HistoryOk(h: seq<string>, s: string)
  {
    |h| >= 1 && h[|h| - 1] == s && NoAdjacentRepeats(h)
  }

  /** Caret and selection anchor both lie within the string. */
  predicate Inv(e: Editor)
  {
    0 <= e.cursor <= |e.str| && 0 <= e.selection <= |e.str| && HistoryOk(e.history, e.str)
  }

  /** Kotlin `coerceIn(0, hi)`. */
  function Clamp(v: int, hi: nat): (r: int)
    ensures 0 <= r <= hi
    ensures 0 <= v <= hi ==> r == v
    ensures v < 0 ==> r == 0
    ensures v > hi ==> r == hi
  {
    if v < 0 then 0 else if v > hi then hi else v
  }

  /** `history.add(value)` unless value is already the last entry. */
  function PushIfChanged(h: seq<string>, v: string): (r: seq<string>)
    requires |h| >= 1
    ensures |r| >= 1 && r[|r| - 1] == v
    ensures NoAdjacentRepeats(h) ==> NoAdjacentRepeats(r)
    ensures h[|h| - 1] == v ==> r == h
    ensures h[|h| - 1] != v ==> |r| == |h| + 1 && r[..|h|] == h
  {
    if h[|h| - 1] != v then h + [v] else h
  }

  /** The state a new element starts in. */
  function Initial(text: string): (e: Editor)
    ensures Inv(e)
  {
    Editor(text, |text|, |text|, [text])
  }

  /** The `string` setter: caret at the end, selection collapsed onto it. */
  function AssignString(e: Editor, value: string): (r: Editor)
    requires |e.history| >= 1
    ensures r.str == value && r.cursor == |value| && r.selection == |value|
    ensures |e.history| <= |r.history| <= |e.history| + 1
    ensures r.history[..|e.history|] == e.history && r.history[|r.history| - 1] == value
  {
    Editor(value, |value|, |value|, PushIfChanged(e.history, value))
  }

  /** The `cursorPosition` setter. */
  function WithCursor(e: Editor, v: int): Editor
  {
    e.(cursor := Clamp(v, |e.str|))
  }

  /** The `selectionStart` setter. */
  function WithSelection(e: Editor, v: int): Editor
  {
    e.(selection := Clamp(v, |e.str|))
  }

  /** Ctrl+Z: drop the last history entry and assign the one before it. */
  function Undo(e: Editor): (r: Editor)
    requires |e.history| >= 1
    ensures |e.history| > 1 ==> r.history == e.history[..|e.history| - 1] && r.str == e.history[|e.history| - 2]
    ensures |e.history| == 1 ==> r == e
  {
    if |e.history| > 1 then
      AssignString(e.(history := e.history[..|e.history| - 1]), e.history[|e.history| - 2])
    else e
  }

  lemma AssignStringKeepsInv(e: Editor, value: string)
    requires Inv(e)
    ensures Inv(AssignString(e, value))
    ensures AssignString(e, value).str == value
    ensures AssignString(e, value).cursor == |value| && AssignString(e, value).selection == |value|
    ensures AssignString(e, value).history[|AssignString(e, value).history| - 1] == value
  {
  }

  /** Undo with more than one entry shrinks the history by one and restores
      the previous string; with one entry it changes nothing. */
  lemma UndoRestores(e: Editor)
    requires Inv(e)
    ensures Inv(Undo(e))
    ensures |e.history| > 1 ==>
      && Undo(e).history == e.history[..|e.history| - 1]
      && Undo(e).str == e.history[|e.history| - 2]
      && Undo(e).cursor == |Undo(e).str| && Undo(e).selection == |Undo(e).str|
    ensures |e.history| == 1 ==> Undo(e) == e
  {
    if |e.history| > 1 {
      var h := e.history[..|e.history| - 1];
      assert h[|h| - 1] == e.history[|e.history| - 2];
      assert NoAdjacentRepeats(h);
    }
  }

  /** Undo after assigning a different string gives back the string and the
      history from before the assignment. */
  lemma UndoAfterAssign(e: Editor, value: string)
    requires Inv(e) && value != e.str
    ensures Undo(AssignString(e, value)).str == e.str
    ensures Undo(AssignString(e, value)).history == e.history
  {
    var a := AssignString(e, value);
    assert a.history == e.history + [value];
    assert a.history[..|a.history| - 1] == e.history;
  }

  // ---------------------------------------------------------------------
  // Key presses

  /** A key press as the element classifies it: the control combinations are
      recognised first, then the key code with the Shift and Ctrl state, then
      any other key as a typed character (with whether it is allowed in chat). */
  datatype KeyPress =
    | CtrlA
    | CtrlC
    | CtrlV(clipboard: string)
    | CtrlX
    | CtrlZ
    | Back(ctrl: bool)
    | Home(shift: bool)
    | Left(shift: bool, ctrl: bool)
    | Right(shift: bool, ctrl: bool)
    | End(shift: bool)
    | Escape
    | NumpadEnter
    | Return
    | Delete(ctrl: bool)
    | Typed(c: char, allowed: bool)

  /** The text-editing helpers the element calls, each taking the string,
      the selection anchor and the caret as the element passes them. */
  datatype EditHelpers = EditHelpers(
    insert: (string, string, int, int) -> string,
    deleteFromCursor: (string, int, int, int) -> string,
    deleteWords: (string, int, int, int) -> string,
    nthWordFromCursor: (string, int, int) -> int,
    nthWordFromPos: (string, int, int) -> int,
    moveCursorBy: (int, int) -> int,
    selectedText: (string, int, int) -> string)

  datatype KeyOutcome = KeyOutcome(editor: Editor, copied: Option<string>, unfocus: bool)

  /** Set the caret, then (unless Shift is held) collapse the selection onto it. */
  function MoveCaret(e: Editor, v: int, shift: bool): Editor
  {
    var moved := WithCursor(e, v);
    if shift then moved else WithSelection(moved, moved.cursor)
  }

  /** The keys that read or assign the string: copy, paste, cut, undo, the
      two delete keys and typed characters. */
  predicate EditKey(key: KeyPress)
  {
    key.CtrlC? || key.CtrlV? || key.CtrlX? || key.CtrlZ? || key.Back? || key.Delete? || key.Typed?
  }

  /** What one key press does to the editing state. */
  function KeyStep(e: Editor, key: KeyPress, h: EditHelpers): (r: KeyOutcome)
    requires |e.history| >= 1
    ensures |r.editor.history| >= 1
    ensures r.copied.Some? <==> key.CtrlC? || key.CtrlX?
    ensures r.copied.Some? ==> r.copied.value == h.selectedText(e.str, e.selection, e.cursor)
    ensures r.unfocus <==> key.Escape? || key.NumpadEnter? || key.Return?
  {
    var s, sel, cur := e.str, e.selection, e.cursor;
    match key
    case CtrlA => KeyOutcome(WithSelection(WithCursor(e, |s|), 0), None, false)
    case CtrlC => KeyOutcome(e, Some(h.selectedText(s, sel, cur)), false)
    case CtrlV(clipboard) => KeyOutcome(AssignString(e, h.insert(clipboard, s, sel, cur)), None, false)
    case CtrlX =>
      KeyOutcome(AssignString(e, h.insert("", s, sel, cur)), Some(h.selectedText(s, sel, cur)), false)
    case CtrlZ => KeyOutcome(Undo(e), None, false)
    case Back(ctrl) =>
      var r := if ctrl then h.deleteWords(s, sel, cur, -1) else h.deleteFromCursor(s, sel, cur, -1);
      KeyOutcome(AssignString(e, r), None, false)
    case Home(shift) => KeyOutcome(if shift then WithSelection(e, 0) else WithCursor(e, 0), None, false)
    case Left(shift, ctrl) =>
      var target :=
        if shift && ctrl then h.moveCursorBy(cur, h.nthWordFromPos(s, -1, cur) - cur)
        else if ctrl then h.nthWordFromCursor(s, -1, cur)
        else h.moveCursorBy(cur, -1);
      KeyOutcome(MoveCaret(e, target, shift), None, false)
    case Right(shift, ctrl) =>
      var target :=
        if shift && ctrl then h.moveCursorBy(cur, h.nthWordFromPos(s, 1, cur) - cur)
        else if ctrl then h.nthWordFromPos(s, 1, cur)
        else h.moveCursorBy(cur, 1);
      KeyOutcome(MoveCaret(e, target, shift), None, false)
    case End(shift) => KeyOutcome(if shift then WithSelection(e, |s|) else WithCursor(e, |s|), None, false)
    case Escape | NumpadEnter | Return => KeyOutcome(WithCursor(WithSelection(e, 0), 0), None, true)
    case Delete(ctrl) =>
      var r := if ctrl then h.deleteWords(s, sel, cur, 1) else h.deleteFromCursor(s, sel, cur, 1);
      KeyOutcome(AssignString(e, r), None, false)
    case Typed(c, allowed) =>
      KeyOutcome(if allowed then AssignString(e, h.insert([c], s, sel, cur)) else e, None, false)
  }

  /** Whatever the helpers return, every key press keeps the caret and the
      selection inside the string and the history well formed. */
  lemma KeyStepKeepsInv(e: Editor, key: KeyPress, h: EditHelpers)
    requires Inv(e)
    ensures Inv(KeyStep(e, key, h).editor)
  {
    if key.CtrlZ? {
      UndoRestores(e);
    }
  }

  /** Only the keys that assign the string (paste, cut, undo, the two delete
      keys and an allowed character) can change the string or the history. */
  lemma KeyStepStringChanges(e: Editor, key: KeyPress, h: EditHelpers)
    requires Inv(e)
    requires !(key.CtrlV? || key.CtrlX? || key.CtrlZ? || key.Back? || key.Delete? || (key.Typed? && key.allowed))
    ensures KeyStep(e, key, h).editor.str == e.str
    ensures KeyStep(e, key, h).editor.history == e.history
  {
  }

  /** Ctrl+A selects everything; Ctrl+C copies the selected text and changes nothing. */
  lemma SelectAllAndCopy(e: Editor, h: EditHelpers)
    requires Inv(e)
    ensures KeyStep(e, CtrlA, h).editor == e.(cursor := |e.str|, selection := 0)
    ensures KeyStep(e, CtrlC, h) == KeyOutcome(e, Some(h.selectedText(e.str, e.selection, e.cursor)), false)
  {
  }

  /** Home and End move the selection anchor with Shift and the caret without;
      Escape and both Enter keys put both at 0 and give up focus. */
  lemma HomeEndEscape(e: Editor, h: EditHelpers, shift: bool)
    requires Inv(e)
    ensures KeyStep(e, Home(shift), h).editor == if shift then e.(selection := 0) else e.(cursor := 0)
    ensures KeyStep(e, End(shift), h).editor == if shift then e.(selection := |e.str|) else e.(cursor := |e.str|)
    ensures forall key: KeyPress :: key.Escape? || key.NumpadEnter? || key.Return? ==>
      KeyStep(e, key, h) == KeyOutcome(e.(cursor := 0, selection := 0), None, true)
  {
  }

  /** Without Shift, moving the caret collapses the selection onto it. */
  lemma ArrowCollapsesSelection(e: Editor, h: EditHelpers, ctrl: bool)
    requires Inv(e)
    ensures KeyStep(e, Left(false, ctrl), h).editor.selection == KeyStep(e, Left(false, ctrl), h).editor.cursor
    ensures KeyStep(e, Right(false, ctrl), h).editor.selection == KeyStep(e, Right(false, ctrl), h).editor.cursor
    ensures KeyStep(e, Left(true, ctrl), h).editor.selection == e.selection
    ensures KeyStep(e, Right(true, ctrl), h).editor.selection == e.selection
  {
  }

  // ---------------------------------------------------------------------
  // Mouse events

  /** A click: a double click (within 300 ms of the last click) selects the
      word around the caret; otherwise the caret goes where the mouse is and,
      without Shift, the selection collapses onto it. */
  function ClickStep(e: Editor, doubleClick: bool, mouseCursor: int, shift: bool, h: EditHelpers): (r: Editor)
    ensures r.str == e.str && r.history == e.history
    ensures !doubleClick && !shift ==> r.selection == r.cursor
    ensures !doubleClick && shift ==> r.selection == e.selection
  {
    if doubleClick then
      WithCursor(WithSelection(e, h.nthWordFromCursor(e.str, -1, e.cursor)), h.nthWordFromCursor(e.str, 1, e.cursor))
    else MoveCaret(e, mouseCursor, shift)
  }

  lemma ClickStepKeepsInv(e: Editor, doubleClick: bool, mouseCursor: int, shift: bool, h: EditHelpers)
    requires Inv(e)
    ensures Inv(ClickStep(e, doubleClick, mouseCursor, shift, h))
    ensures ClickStep(e, doubleClick, mouseCursor, shift, h).str == e.str
    ensures ClickStep(e, doubleClick, mouseCursor, shift, h).history == e.history
    ensures !doubleClick && 0 <= mouseCursor <= |e.str| ==>
      ClickStep(e, doubleClick, mouseCursor, shift, h).cursor == mouseCursor
  {
  }

  /** The time between clicks below which a click counts as a double click. */
  const DoubleClickMillis := 300

  // ---------------------------------------------------------------------
  // The element

  class TextInput {
    /** The displayed text (the text element's own field). */
    var text: string
    /** The backing field of the `string` property. */
    var str: string
    var cursorPosition: int
    var selectionStart: int
    var history: seq<string>
    var isHeld: bool
    var lastClickTime: int

    function State(): Editor
      reads this
    {
      Editor(str, cursorPosition, selectionStart, history)
    }

    ghost predicate Valid()
      reads this
    {
      text == str && Inv(State())
    }

    constructor (text: string)
      ensures Valid() && State() == Initial(text)
      ensures !isHeld && lastClickTime == 0
    {
      this.text := text;
      str := text;
      cursorPosition := |text|;
      selectionStart := |text|;
      history := [text];
      isHeld := false;
      lastClickTime := 0;
    }

    method SetString(value: string)
      requires |history| >= 1 && NoAdjacentRepeats(history)
      modifies this
      ensures Valid() && State() == AssignString(old(State()), value)
      ensures isHeld == old(isHeld) && lastClickTime == old(lastClickTime)
    {
      text := value;
      str := value;
      SetCursorPosition(|value|);
      SetSelectionStart(cursorPosition);
      if history[|history| - 1] != value {
        history := history + [value];
      }
    }

    method SetCursorPosition(v: int)
      requires text == str
      modifies this
      ensures text == str && State() == WithCursor(old(State()), v)
      ensures text == old(text) && isHeld == old(isHeld) && lastClickTime == old(lastClickTime)
    {
      cursorPosition := Clamp(v, |text|);
    }

    method SetSelectionStart(v: int)
      requires text == str
      modifies this
      ensures text == str && State() == WithSelection(old(State()), v)
      ensures text == old(text) && isHeld == old(isHeld) && lastClickTime == old(lastClickTime)
    {
      selectionStart := Clamp(v, |text|);
    }

    /** Set the caret and, without Shift, collapse the selection onto it. */
    method MoveCaretTo(target: int, shift: bool)
      requires Valid()
      modifies this
      ensures Valid() && State() == MoveCaret(old(State()), target, shift)
      ensures isHeld == old(isHeld) && lastClickTime == old(lastClickTime)
    {
      SetCursorPosition(target);
      if !shift {
        SetSelectionStart(cursorPosition);
      }
    }

    /** Handle one key press; returns the text put on the clipboard, if any,
        and whether the element gives up focus. */
    method HandleKeyPress(key: KeyPress, h: EditHelpers) returns (copied: Option<string>, unfocus: bool)
      requires Valid()
      modifies this
      ensures Valid()
      ensures KeyStep(old(State()), key, h) == KeyOutcome(State(), copied, unfocus)
      ensures isHeld == old(isHeld) && lastClickTime == old(lastClickTime)
    {
      if EditKey(key) {
        copied := EditText(key, h);
        unfocus := false;
      } else {
        unfocus := MoveByKey(key, h);
        copied := None;
      }
    }

    /** The keys that change the string or copy from it. */
    method EditText(key: KeyPress, h: EditHelpers) returns (copied: Option<string>)
      requires Valid() && EditKey(key)
      modifies this
      ensures Valid()
      ensures KeyStep(old(State()), key, h) == KeyOutcome(State(), copied, false)
      ensures isHeld == old(isHeld) && lastClickTime == old(lastClickTime)
    {
      copied := None;
      match key
      case CtrlC =>
        copied := Some(h.selectedText(str, selectionStart, cursorPosition));
      case CtrlV(clipboard) =>
        SetString(h.insert(clipboard, str, selectionStart, cursorPosition));
      case CtrlX =>
        copied := Some(h.selectedText(str, selectionStart, cursorPosition));
        SetString(h.insert("", str, selectionStart, cursorPosition));
      case CtrlZ =>
        if |history| > 1 {
          history := history[..|history| - 1];
          SetString(history[|history| - 1]);
        }
      case Back(ctrl) =>
        var r := if ctrl then h.deleteWords(str, selectionStart, cursorPosition, -1)
                 else h.deleteFromCursor(str, selectionStart, cursorPosition, -1);
        SetString(r);
      case Delete(ctrl) =>
        var r := if ctrl then h.deleteWords(str, selectionStart, cursorPosition, 1)
                 else h.deleteFromCursor(str, selectionStart, cursorPosition, 1);
        SetString(r);
      case Typed(c, allowed) =>
        if allowed {
          SetString(h.insert([c], str, selectionStart, cursorPosition));
        }
    }

    /** The keys that move the caret or the selection, or give up focus. */
    method MoveByKey(key: KeyPress, h: EditHelpers) returns (unfocus: bool)
      requires Valid() && !EditKey(key)
      modifies this
      ensures Valid()
      ensures KeyStep(old(State()), key, h) == KeyOutcome(State(), None, unfocus)
      ensures isHeld == old(isHeld) && lastClickTime == old(lastClickTime)
    {
      unfocus := false;
      match key
      case CtrlA =>
        SetCursorPosition(|text|);
        SetSelectionStart(0);
      case Home(shift) =>
        if shift {
          SetSelectionStart(0);
        } else {
          SetCursorPosition(0);
        }
      case Left(shift, ctrl) =>
        var target :=
          if shift && ctrl then h.moveCursorBy(cursorPosition, h.nthWordFromPos(str, -1, cursorPosition) - cursorPosition)
          else if ctrl then h.nthWordFromCursor(text, -1, cursorPosition)
          else h.moveCursorBy(cursorPosition, -1);
        MoveCaretTo(target, shift);
      case Right(shift, ctrl) =>
        var target :=
          if shift && ctrl then h.moveCursorBy(cursorPosition, h.nthWordFromPos(str, 1, cursorPosition) - cursorPosition)
          else if ctrl then h.nthWordFromPos(str, 1, cursorPosition)
          else h.moveCursorBy(cursorPosition, 1);
        MoveCaretTo(target, shift);
      case End(shift) =>
        if shift {
          SetSelectionStart(|text|);
        } else {
          SetCursorPosition(|text|);
        }
      case Escape | NumpadEnter | Return =>
        SetSelectionStart(0);
        SetCursorPosition(0);
        unfocus := true;
    }

    /** A mouse click at time `now`; `mouseCursor` is the caret position under the mouse. */
    method MouseClicked(now: int, mouseCursor: int, shift: bool, h: EditHelpers)
      requires Valid()
      modifies this
      ensures Valid()
      ensures State() == ClickStep(old(State()), now - old(lastClickTime) < DoubleClickMillis, mouseCursor, shift, h)
      ensures lastClickTime == now && isHeld
    {
      if now - lastClickTime < DoubleClickMillis {
        var wordStart := h.nthWordFromCursor(str, -1, cursorPosition);
        SetSelectionStart(wordStart);
        SetCursorPosition(h.nthWordFromCursor(str, 1, cursorPosition));
      } else {
        MoveCaretTo(mouseCursor, shift);
      }
      lastClickTime := now;
      isHeld := true;
    }

    /** Mouse movement: while the button is held the caret follows the mouse;
        any movement cancels a pending double click. */
    method MouseMoved(mouseCursor: int)
      requires Valid()
      modifies this
      ensures Valid()
      ensures State() == if old(isHeld) then WithCursor(old(State()), mouseCursor) else old(State())
      ensures lastClickTime == 0 && isHeld == old(isHeld)
    {
      if isHeld {
        SetCursorPosition(mouseCursor);
      }
      lastClickTime := 0;
    }

    method MouseReleased()
      modifies this
      ensures !isHeld
      ensures text == old(text) && State() == old(State()) && lastClickTime == old(lastClickTime)
    {
      isHeld := false;
    }
  }
}
