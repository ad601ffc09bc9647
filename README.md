# Odin: terminal solver, water board solver and text input — a Dafny model

This project models three stateful components of the Odin Minecraft client mod and proves properties of them.

- **Terminal solver** (floor 7, phase 3). It recognises which of the five terminals a chest GUI belongs to from the GUI title. For each kind it computes the chest slots to click:
  - red panes;
  - rubix colour ring;
  - click in order;
  - "what starts with";
  - "select all the" colour.

  It keeps the solver's state as a small state machine: the current terminal, the solution, the locked rubix colour, the clicks needed and the opening time. It is driven by GUI loads, client ticks and chat messages.
- **Water board solver** (dungeon puzzle). Its parts are:
  - classifying the board variant from the blocks under the piston;
  - reading which wool slots are extended into a key such as `"024"`;
  - loading that board's lever timings from the solution file into an insertion-ordered map;
  - counting lever clicks, including the first WATER click that starts the clock;
  - the computation behind rendering: the pending clicks ordered by time, with WATER last among equal times, and each lever's order text of ranks.
- **Text input** (UI element). This covers the editing state and what changes it:
  - the string, the caret and the selection anchor, clamped by their setters;
  - the undo history, which grows only on a changed value and is popped by Ctrl+Z;
  - the key presses: Ctrl+A/C/V/X/Z, Backspace, Home, Left, Right, End, Escape and the two Enter keys, Delete, and typed characters;
  - mouse clicks, drags and releases.

Files:
- `common.dfy`: Kotlin list and string helpers (`drop`, `indexOf`, `count`, `startsWith`/`contains` ignoring ASCII case, decimal rendering).
- `stable_sort.dfy`: `sortedBy` as a stable insertion sort, with proofs that it is sorted, a permutation and stable.
- `terminal_solver.dfy`, `water_solver.dfy`, `text_input.dfy`: one module per component. Each keeps the component's mutable state as a class whose methods are proved against value-level functions.

Modelling choices:

- An inventory is `seq<Option<Item>>`, where `None` is an empty slot.
  - `items.indexOf(stack)` on item stacks is a reference lookup, so it is modelled as the slot's own position.
- Regex results are inputs: the starts-with letter, the colour name and the chat match. World block reads, the clock and lever positions are also inputs.
- The text helpers of the text input are passed in as functions: `insert`, `deleteFromCursor`, `deleteWords`, word navigation, `moveCursorBy` and `getSelectedText`.
- Water board times are integers in a fixed unit, because only their order and their comparison with 0 matter.
  - The `+ 0.01` given to WATER is the sort key `2 * time + (1 if WATER)`.
- `LeverBlock.i`, the per-lever click counter that lives on the enum, is a `map<LeverBlock, nat>` field of the solver.

## Model

| member | source | states |
|---|---|---|
| Common.IndexOf | odinmain/src/main/kotlin/me/odinmain/features/impl/floor7/p3/TerminalSolver.kt:239 | `indexOf` is -1 exactly when the element is absent, else the first position holding it |
| Common.Drop | odinmain/src/main/kotlin/me/odinmain/features/impl/dungeon/puzzlesolvers/WaterSolver.kt:134 | `drop(n)` is the suffix after n elements, empty when n is past the end |
| Common.NatToString | odinmain/src/main/kotlin/me/odinmain/features/impl/dungeon/puzzlesolvers/WaterSolver.kt:166 | the decimal rendering is all digits, denotes the number, has one digit exactly when the number is below 10 and never a leading zero otherwise, so it is the canonical form |
| Common.IntToString | odinmain/src/main/kotlin/me/odinmain/features/impl/dungeon/puzzlesolvers/WaterSolver.kt:112 | the decimal rendering of an Int: the digits of a non-negative number, else '-' and the digits of its magnitude |
| Common.Count | odinmain/src/main/kotlin/me/odinmain/features/impl/floor7/p3/TerminalSolver.kt:254 | `count { it == x }` is at most the length, and 0 exactly when x is absent |
| Common.Lower | odinmain/src/main/kotlin/me/odinmain/features/impl/floor7/p3/TerminalSolver.kt:102 | `lowercase()` maps each character to its lower-case form (ASCII letters) |
| Common.StartsWithIgnoreCase | odinmain/src/main/kotlin/me/odinmain/features/impl/floor7/p3/TerminalSolver.kt:268 | `startsWith(prefix, true)` holds iff the prefix fits and the lower-cased prefix of the string equals the lower-cased prefix |
| Common.ContainsIgnoreCase | odinmain/src/main/kotlin/me/odinmain/features/impl/floor7/p3/TerminalSolver.kt:274-275 | `contains(sub, true)`: a string contains every prefix it starts with ignoring case, and never a longer string |
| StableSort.SortBy | odinmain/src/main/kotlin/me/odinmain/features/impl/floor7/p3/TerminalSolver.kt:264 | `sortedBy` returns a permutation of its input, non-decreasing in the key |
| StableSort.SortByStable | odinmain/src/main/kotlin/me/odinmain/features/impl/dungeon/puzzlesolvers/WaterSolver.kt:135 | `sortedBy` is stable: for every key value, the elements with that key keep their input order |
| StableSort.SortByLex | odinmain/src/main/kotlin/me/odinmain/features/impl/floor7/p3/TerminalSolver.kt:264 | on an input increasing in a tag, equal keys come out in tag order |
| TerminalSolverModel.DetectTerminal | odinmain/src/main/kotlin/me/odinmain/features/impl/floor7/p3/TerminalSolver.kt:84 | the detected kind is a real terminal exactly when its GUI name is a prefix of the title, otherwise NONE |
| TerminalSolverModel.GuiNamesExclusive | odinmain/src/main/kotlin/me/odinmain/features/impl/floor7/p3/TerminalSolver.kt:281-288 | no title starts with the GUI names of two different kinds, so declaration order never decides between two matches |
| TerminalSolverModel.FindFrom | odinmain/src/main/kotlin/me/odinmain/features/impl/floor7/p3/TerminalSolver.kt:84 | `entries.find`: the first entry from k on whose name prefixes the title, with no match before it |
| TerminalSolverModel.ShouldBlockWrong | odinmain/src/main/kotlin/me/odinmain/features/impl/floor7/p3/TerminalSolver.kt:123-133 | wrong slots are hidden exactly when "Stop Rendering Wrong" is on and the terminal is the order terminal, or panes, rubix, starts-with or select with that kind's own setting on |
| TerminalSolverModel.ChestSlots | odinmain/src/main/kotlin/me/odinmain/features/impl/floor7/p3/TerminalSolver.kt:91 | the chest part is the inventory's slots, in order, without its last 37 |
| TerminalSolverModel.FilterSlots | odinmain/src/main/kotlin/me/odinmain/features/impl/floor7/p3/TerminalSolver.kt:222 | `filter { p }.map { indexOf }` is strictly ascending and holds exactly the slots satisfying p |
| TerminalSolverModel.SolvePanes | odinmain/src/main/kotlin/me/odinmain/features/impl/floor7/p3/TerminalSolver.kt:221-223 | the solution is exactly the slots with metadata 14, ascending |
| TerminalSolverModel.SolveStartsWith | odinmain/src/main/kotlin/me/odinmain/features/impl/floor7/p3/TerminalSolver.kt:267-269 | exactly the unenchanted items whose name starts with the letter ignoring case, ascending |
| TerminalSolverModel.SolveSelect | odinmain/src/main/kotlin/me/odinmain/features/impl/floor7/p3/TerminalSolver.kt:271-278 | exactly the unenchanted non-pane items whose name contains the colour, excluding "lightBlue" names unless the colour is "lightblue", ascending |
| TerminalSolverModel.SolveNumbers | odinmain/src/main/kotlin/me/odinmain/features/impl/floor7/p3/TerminalSolver.kt:263-265 | exactly the red glass-pane slots, each once, in non-decreasing stack size, equal sizes in slot order |
| TerminalSolverModel.Dist | odinmain/src/main/kotlin/me/odinmain/features/impl/floor7/p3/TerminalSolver.kt:260-261 | on ring positions the distance is in 0..4, 0 iff equal, and is the forward distance mod 5; an unknown colour (index -1) gives most + 1 |
| TerminalSolverModel.ClicksFor | odinmain/src/main/kotlin/me/odinmain/features/impl/floor7/p3/TerminalSolver.kt:237-241 | a slot needs no clicks iff it is not a non-black pane or already has the colour, else `dist` of its ring index to the colour's; a metadata off the ring has index -1 and needs the colour's index + 1 clicks |
| TerminalSolverModel.RubixCandidate | odinmain/src/main/kotlin/me/odinmain/features/impl/floor7/p3/TerminalSolver.kt:237-241 | the candidate list holds slot indices of the chest only, in non-decreasing slot order |
| TerminalSolverModel.RubixCandidateCount | odinmain/src/main/kotlin/me/odinmain/features/impl/floor7/p3/TerminalSolver.kt:237-241 | every slot occurs in a colour's candidate exactly as often as it needs clicks |
| TerminalSolverModel.Distinct | odinmain/src/main/kotlin/me/odinmain/features/impl/floor7/p3/TerminalSolver.kt:253 | `distinct()` has no repeats and holds exactly the elements of its input |
| TerminalSolverModel.GetRealSize | odinmain/src/main/kotlin/me/odinmain/features/impl/floor7/p3/TerminalSolver.kt:251-258 | the loop computes the sum over distinct slots of count, or 5 - count when the count is 3 or more |
| TerminalSolverModel.RealSizeAtMostLength | odinmain/src/main/kotlin/me/odinmain/features/impl/floor7/p3/TerminalSolver.kt:251-258 | counting right clicks never costs more than the list's length |
| TerminalSolverModel.RealSizeOfFewClicks | odinmain/src/main/kotlin/me/odinmain/features/impl/floor7/p3/TerminalSolver.kt:251-258 | when no slot occurs three or more times, the cost is the length |
| TerminalSolverModel.InitialTempRealSize | odinmain/src/main/kotlin/me/odinmain/features/impl/floor7/p3/TerminalSolver.kt:228 | the starting list 0..99 costs 100 |
| TerminalSolverModel.ScanTempSize | odinmain/src/main/kotlin/me/odinmain/features/impl/floor7/p3/TerminalSolver.kt:242 | the size compared against is 100 before any colour wins, then the best colour's cost |
| TerminalSolverModel.BestStep | odinmain/src/main/kotlin/me/odinmain/features/impl/floor7/p3/TerminalSolver.kt:242-245 | the strict `<` keeps the earliest colour of minimal cost below 100 |
| TerminalSolverModel.BestOutcome | odinmain/src/main/kotlin/me/odinmain/features/impl/floor7/p3/TerminalSolver.kt:236-248 | after all five colours, the result is the earliest cheapest colour's candidate, or the untouched 0..99 list when none costs below 100 |
| TerminalSolverModel.ScanColors | odinmain/src/main/kotlin/me/odinmain/features/impl/floor7/p3/TerminalSolver.kt:236-246 | the unlocked search returns the earliest colour of minimal cost and its candidate (or the start value when no colour costs below 100) |
| TerminalSolverModel.RubixLabel | odinmain/src/main/kotlin/me/odinmain/features/impl/floor7/p3/TerminalSolver.kt:147-148 | the label's magnitude is the click cost of the count, negative exactly for 3 and 4 |
| TerminalSolverModel.CompletesAsWrittenNever | odinmain/src/main/kotlin/me/odinmain/features/impl/floor7/p3/TerminalSolver.kt:210-212 | the completion test as written is false for every chat match |
| TerminalSolverModel.CompletesExactly | odinmain/src/main/kotlin/me/odinmain/features/impl/floor7/p3/TerminalSolver.kt:212 | the intended test holds iff done == total and that is 7 or 8 |
| TerminalSolverModel.CompletionCounterexample | odinmain/src/main/kotlin/me/odinmain/features/impl/floor7/p3/TerminalSolver.kt:208-212 | "(7/7)" completes as intended but not as written |
| TerminalSolverModel.TerminalSolver.constructor | odinmain/src/main/kotlin/me/odinmain/features/impl/floor7/p3/TerminalSolver.kt:73-80 | starts with no terminal, an empty solution, no locked colour and -1 clicks needed |
| TerminalSolverModel.TerminalSolver.LeftTerm | odinmain/src/main/kotlin/me/odinmain/features/impl/floor7/p3/TerminalSolver.kt:215-219 | leaving sets the terminal to NONE and empties the solution, nothing else |
| TerminalSolverModel.TerminalSolver.SolveColor | odinmain/src/main/kotlin/me/odinmain/features/impl/floor7/p3/TerminalSolver.kt:226-249 | with a locked colour its candidate, otherwise the earliest cheapest colour, recorded as the new rubix solution |
| TerminalSolverModel.TerminalSolver.SolveCurrent | odinmain/src/main/kotlin/me/odinmain/features/impl/floor7/p3/TerminalSolver.kt:91-106 | each kind's solver fills the solution and clicks needed becomes its size; a missing letter or colour changes neither |
| TerminalSolverModel.TerminalSolver.OnGuiLoad | odinmain/src/main/kotlin/me/odinmain/features/impl/floor7/p3/TerminalSolver.kt:83-108 | the detected kind becomes current; a new kind resets the opening time and the locked colour; NONE leaves the terminal; otherwise that kind's solution with clicks needed its size |
| TerminalSolverModel.TerminalSolver.OnTick | odinmain/src/main/kotlin/me/odinmain/features/impl/floor7/p3/TerminalSolver.kt:200-204 | at the end of a tick, leaves when the player inventory is open or no terminal is current; otherwise nothing changes |
| TerminalSolverModel.TerminalSolver.OnChat | odinmain/src/main/kotlin/me/odinmain/features/impl/floor7/p3/TerminalSolver.kt:206-213 | leaves exactly on the player's own (7/7) or (8/8) message (corrected test) |
| WaterSolverModel.ScanBlocks | odinmain/src/main/kotlin/me/odinmain/features/impl/dungeon/puzzlesolvers/WaterSolver.kt:70-83 | each flag is set iff that block kind occurs among the scanned blocks |
| WaterSolverModel.Variant | odinmain/src/main/kotlin/me/odinmain/features/impl/dungeon/puzzlesolvers/WaterSolver.kt:86-92 | the variant is the first of 0..3 whose block pair is present, -1 iff none is |
| WaterSolverModel.ExtendedKey | odinmain/src/main/kotlin/me/odinmain/features/impl/dungeon/puzzlesolvers/WaterSolver.kt:94-95 | the key has strictly increasing digits below the number of colours, and holds digit d iff colour d is extended |
| WaterSolverModel.ReadExtendedSlots | odinmain/src/main/kotlin/me/odinmain/features/impl/dungeon/puzzlesolvers/WaterSolver.kt:94-95 | the `+=` loop builds exactly that key |
| WaterSolverModel.LeverOf | odinmain/src/main/kotlin/me/odinmain/features/impl/dungeon/puzzlesolvers/WaterSolver.kt:114-124 | a key maps to a real lever iff it is that lever's block name; anything else maps to NONE |
| WaterSolverModel.LeverKeyRoundTrip | odinmain/src/main/kotlin/me/odinmain/features/impl/dungeon/puzzlesolvers/WaterSolver.kt:114-124 | each of the seven block names maps back to its lever |
| WaterSolverModel.KeyIndex | odinmain/src/main/kotlin/me/odinmain/features/impl/dungeon/puzzlesolvers/WaterSolver.kt:114 | the map's entry for a lever is its first entry with that key, -1 iff there is none |
| WaterSolverModel.Lookup | odinmain/src/main/kotlin/me/odinmain/features/impl/dungeon/puzzlesolvers/WaterSolver.kt:114-125 | a lever's entry is absent iff no entry has its key, and a found value belongs to an entry with that key |
| WaterSolverModel.Put | odinmain/src/main/kotlin/me/odinmain/features/impl/dungeon/puzzlesolvers/WaterSolver.kt:114-125 | `solutions[l] = v` makes l map to v, leaves every other lever's value, replaces in place for a present key and appends a new one; keys stay distinct |
| WaterSolverModel.PutAll | odinmain/src/main/kotlin/me/odinmain/features/impl/dungeon/puzzlesolvers/WaterSolver.kt:113-126 | after putting all entries, each lever maps to the value of its last entry in the file, else keeps its old value; the old keys keep their positions |
| WaterSolverModel.PutAllOrder | odinmain/src/main/kotlin/me/odinmain/features/impl/dungeon/puzzlesolvers/WaterSolver.kt:111-126 | the keys added after the old ones each have an entry in the object and come in the order of their first entries there, as a LinkedHashMap iterates |
| WaterSolverModel.LoadSolutions | odinmain/src/main/kotlin/me/odinmain/features/impl/dungeon/puzzlesolvers/WaterSolver.kt:111-126 | the loop over the solution object leaves exactly those puts applied to the cleared map |
| WaterSolverModel.FindLever | odinmain/src/main/kotlin/me/odinmain/features/impl/dungeon/puzzlesolvers/WaterSolver.kt:189 | the found lever is at the clicked position with no earlier entry there; none is found iff no lever is there |
| WaterSolverModel.PendingOf | odinmain/src/main/kotlin/me/odinmain/features/impl/dungeon/puzzlesolvers/WaterSolver.kt:134 | a lever's pending clicks are its times from the first unclicked one on, in order, each paired with the lever |
| WaterSolverModel.Pending | odinmain/src/main/kotlin/me/odinmain/features/impl/dungeon/puzzlesolvers/WaterSolver.kt:133-134 | the `flatMap` only yields pending clicks of levers that have an entry in the map |
| WaterSolverModel.PendingAppend | odinmain/src/main/kotlin/me/odinmain/features/impl/dungeon/puzzlesolvers/WaterSolver.kt:133-134 | the pending list of two joined maps is the two pending lists joined |
| WaterSolverModel.PendingClickAt | odinmain/src/main/kotlin/me/odinmain/features/impl/dungeon/puzzlesolvers/WaterSolver.kt:133-134 | around the clicked lever's entry, the entries before and after keep their pending clicks and its own loses its first |
| WaterSolverModel.PendingIgnoresOther | odinmain/src/main/kotlin/me/odinmain/features/impl/dungeon/puzzlesolvers/WaterSolver.kt:134 | clicks of a lever without an entry do not change the pending list |
| WaterSolverModel.PendingAfterClick | odinmain/src/main/kotlin/me/odinmain/features/impl/dungeon/puzzlesolvers/WaterSolver.kt:133-134 | one more click of a lever with a time left removes exactly the pair of that lever and its first unclicked time; every other pending click stays |
| WaterSolverModel.SolutionList | odinmain/src/main/kotlin/me/odinmain/features/impl/dungeon/puzzlesolvers/WaterSolver.kt:133-135 | the solution list is the pending clicks, permuted into non-decreasing sort key (time, WATER last among equal times) |
| WaterSolverModel.SolutionListOrdered | odinmain/src/main/kotlin/me/odinmain/features/impl/dungeon/puzzlesolvers/WaterSolver.kt:133-135 | the solution list is a permutation of the pending clicks, in non-decreasing time, WATER after other levers of equal time, stable within equal keys |
| WaterSolverModel.NonZero | odinmain/src/main/kotlin/me/odinmain/features/impl/dungeon/puzzlesolvers/WaterSolver.kt:139 | the filter keeps exactly the non-zero times, each as often as it occurs, and drops every zero |
| WaterSolverModel.PendingNonZero | odinmain/src/main/kotlin/me/odinmain/features/impl/dungeon/puzzlesolvers/WaterSolver.kt:137-141 | the collected times are exactly the non-zero times of the pending clicks, each as often as it is pending |
| WaterSolverModel.SortedTimes | odinmain/src/main/kotlin/me/odinmain/features/impl/dungeon/puzzlesolvers/WaterSolver.kt:137-143 | `sortedSolutions` is the collected non-zero times, permuted into ascending order |
| WaterSolverModel.CountLessSorted | odinmain/src/main/kotlin/me/odinmain/features/impl/dungeon/puzzlesolvers/WaterSolver.kt:143 | sorting does not change how many times lie below a given time |
| WaterSolverModel.IndexOfSorted | odinmain/src/main/kotlin/me/odinmain/features/impl/dungeon/puzzlesolvers/WaterSolver.kt:166 | in a sorted list, `indexOf(t)` is the number of elements below t |
| WaterSolverModel.RankOrder | odinmain/src/main/kotlin/me/odinmain/features/impl/dungeon/puzzlesolvers/WaterSolver.kt:137-166 | a pending non-zero time's shown rank is one more than the number of pending non-zero times below it, so equal times share a rank and larger times rank higher |
| WaterSolverModel.OrderText | odinmain/src/main/kotlin/me/odinmain/features/impl/dungeon/puzzlesolvers/WaterSolver.kt:163-167 | the loop builds one piece per time: "0" for a zero time, else ", " (unless first) and the rank |
| WaterSolverModel.PiecesWithoutZero | odinmain/src/main/kotlin/me/odinmain/features/impl/dungeon/puzzlesolvers/WaterSolver.kt:163-167 | without zero times, the order text is the ranks joined by ", " |
| WaterSolverModel.OrderTexts | odinmain/src/main/kotlin/me/odinmain/features/impl/dungeon/puzzlesolvers/WaterSolver.kt:162-167 | one order text per lever, in map order, from its unclicked times |
| WaterSolverModel.WaterSolver.constructor | odinmain/src/main/kotlin/me/odinmain/features/impl/dungeon/puzzlesolvers/WaterSolver.kt:41-44 | starts with variant -1, no key, no solutions, the clock unset and every counter 0 |
| WaterSolverModel.WaterSolver.Solve | odinmain/src/main/kotlin/me/odinmain/features/impl/dungeon/puzzlesolvers/WaterSolver.kt:65-127 | sets the variant and key; without three extended slots it resets both, keeps the solutions and retries; otherwise the map holds the board's entries, or the lookup of a missing board fails after clearing it |
| WaterSolverModel.WaterSolver.WaterInteract | odinmain/src/main/kotlin/me/odinmain/features/impl/dungeon/puzzlesolvers/WaterSolver.kt:187-194 | with solutions loaded, the lever at the clicked position gets one more click and the first WATER click starts the clock; otherwise nothing changes |
| WaterSolverModel.WaterSolver.Reset | odinmain/src/main/kotlin/me/odinmain/features/impl/dungeon/puzzlesolvers/WaterSolver.kt:196-204 | variant -1, no key, no solutions, clock unset, every lever counter 0 |
| WaterSolverModel.WaterSolver.WaterRender | odinmain/src/main/kotlin/me/odinmain/features/impl/dungeon/puzzlesolvers/WaterSolver.kt:130-167 | outside the room or with nothing pending, nothing; otherwise the first click of the ordered list and every lever's order text |
| TextInputModel.Clamp | odinmain/src/main/kotlin/com/github/stivais/ui/elements/impl/TextInput.kt:30 | `coerceIn(0, hi)` lies in 0..hi and keeps in-range values |
| TextInputModel.PushIfChanged | odinmain/src/main/kotlin/com/github/stivais/ui/elements/impl/TextInput.kt:25 | the history ends with the value, grows by one only when the value differs from its last entry, and keeps no adjacent repeats |
| TextInputModel.AssignString | odinmain/src/main/kotlin/com/github/stivais/ui/elements/impl/TextInput.kt:18-26 | the string becomes the value, caret and anchor its length, and the history is extended by at most one entry and ends with the value |
| TextInputModel.Undo | odinmain/src/main/kotlin/com/github/stivais/ui/elements/impl/TextInput.kt:116-121 | with more than one entry the last entry is dropped and the string becomes the one before; with one entry nothing changes |
| TextInputModel.Initial | odinmain/src/main/kotlin/com/github/stivais/ui/elements/impl/TextInput.kt:18-43 | a new element satisfies the invariant: caret and anchor in range, history [text] |
| TextInputModel.AssignStringKeepsInv | odinmain/src/main/kotlin/com/github/stivais/ui/elements/impl/TextInput.kt:19-26 | assigning the string puts caret and anchor at its end and keeps the history invariant with the value last |
| TextInputModel.UndoRestores | odinmain/src/main/kotlin/com/github/stivais/ui/elements/impl/TextInput.kt:116-121 | Ctrl+Z with more than one entry drops exactly the last entry and restores the one before; with one entry it changes nothing |
| TextInputModel.UndoAfterAssign | odinmain/src/main/kotlin/com/github/stivais/ui/elements/impl/TextInput.kt:116-121 | undo right after assigning a different string gives back the old string and history |
| TextInputModel.KeyStep | odinmain/src/main/kotlin/com/github/stivais/ui/elements/impl/TextInput.kt:100-183 | the history stays non-empty; only Ctrl+C and Ctrl+X copy, and they copy the selected text; only Escape and the two Enters unfocus |
| TextInputModel.KeyStepKeepsInv | odinmain/src/main/kotlin/com/github/stivais/ui/elements/impl/TextInput.kt:100-183 | whatever the helpers return, every key keeps caret and anchor in range and the history well formed |
| TextInputModel.KeyStepStringChanges | odinmain/src/main/kotlin/com/github/stivais/ui/elements/impl/TextInput.kt:100-183 | only paste, cut, undo, the delete keys and allowed characters change the string or the history |
| TextInputModel.SelectAllAndCopy | odinmain/src/main/kotlin/com/github/stivais/ui/elements/impl/TextInput.kt:102-107 | Ctrl+A puts the caret at the end and the anchor at 0; Ctrl+C copies the selection and changes nothing |
| TextInputModel.HomeEndEscape | odinmain/src/main/kotlin/com/github/stivais/ui/elements/impl/TextInput.kt:130-169 | Home/End move the anchor with Shift and the caret without; Escape and both Enters zero both and unfocus |
| TextInputModel.ArrowCollapsesSelection | odinmain/src/main/kotlin/com/github/stivais/ui/elements/impl/TextInput.kt:135-157 | Left/Right without Shift collapse the selection onto the caret; with Shift the anchor stays |
| TextInputModel.ClickStep | odinmain/src/main/kotlin/com/github/stivais/ui/elements/impl/TextInput.kt:66-77 | a click never changes string or history; a single click collapses the selection onto the caret without Shift and keeps the anchor with Shift |
| TextInputModel.ClickStepKeepsInv | odinmain/src/main/kotlin/com/github/stivais/ui/elements/impl/TextInput.kt:66-77 | a click keeps the invariant, never changes string or history, and a single click in range puts the caret under the mouse |
| TextInputModel.TextInput.constructor | odinmain/src/main/kotlin/com/github/stivais/ui/elements/impl/TextInput.kt:16-45 | caret and anchor at the end of the initial text, history holding just that text |
| TextInputModel.TextInput.SetString | odinmain/src/main/kotlin/com/github/stivais/ui/elements/impl/TextInput.kt:18-26 | `text` and the string become the value, caret and anchor its length, history pushed if changed |
| TextInputModel.TextInput.SetCursorPosition | odinmain/src/main/kotlin/com/github/stivais/ui/elements/impl/TextInput.kt:28-32 | the caret becomes the value clamped to the text |
| TextInputModel.TextInput.SetSelectionStart | odinmain/src/main/kotlin/com/github/stivais/ui/elements/impl/TextInput.kt:34-38 | the anchor becomes the value clamped to the text |
| TextInputModel.TextInput.MoveCaretTo | odinmain/src/main/kotlin/com/github/stivais/ui/elements/impl/TextInput.kt:140-144 | set the caret, then without Shift collapse the selection onto it |
| TextInputModel.TextInput.HandleKeyPress | odinmain/src/main/kotlin/com/github/stivais/ui/elements/impl/TextInput.kt:100-185 | the new state, the copied text and the unfocus flag are exactly the key's step on the old state |
| TextInputModel.TextInput.EditText | odinmain/src/main/kotlin/com/github/stivais/ui/elements/impl/TextInput.kt:107-181 | the editing keys do exactly their step (copy, paste, cut, undo, delete, type) |
| TextInputModel.TextInput.MoveByKey | odinmain/src/main/kotlin/com/github/stivais/ui/elements/impl/TextInput.kt:102-169 | the moving keys do exactly their step (select all, Home, Left, Right, End, Escape/Enter) |
| TextInputModel.TextInput.MouseClicked | odinmain/src/main/kotlin/com/github/stivais/ui/elements/impl/TextInput.kt:66-77 | within 300 ms of the last click select the word around the caret, else move the caret under the mouse; record the time and hold |
| TextInputModel.TextInput.MouseMoved | odinmain/src/main/kotlin/com/github/stivais/ui/elements/impl/TextInput.kt:79-83 | while held, the caret follows the mouse; the last click time is reset |
| TextInputModel.TextInput.MouseReleased | odinmain/src/main/kotlin/com/github/stivais/ui/elements/impl/TextInput.kt:85-88 | releasing ends the hold and changes nothing else |

## Left out

- Rendering:
  - terminal overlays, slot colours and numbers, and the custom terminal GUI;
  - tooltip clearing and slot-overlay cancelling;
  - the water board's tracer lines, world text and countdown text (`displayText`);
  - the text input's drawing, text widths, `selectionX` and caret placement.
- Host events and messages, which are side effects with no state of their own: `TerminalOpenedEvent`/`TerminalClosedEvent` posting, `modMessage`/`devMessage` output, keyboard repeat settings and `ui.unfocus()`. `ui.unfocus()` is modelled as the `unfocus` result.
- The text input's focus-on-click handler (`TextInput.kt:90-96`). It only focuses the element and recomputes a width.
- Common.LowerChar, Common.Lower, Common.StartsWithIgnoreCase, Common.ContainsIgnoreCase: fold ASCII letters only. Kotlin's `lowercase()` and `ignoreCase = true` fold full Unicode, so item names with non-ASCII letters of different case compare unequal here.
- Regex matching and the dye-colour lookup. The starts-with letter, the needed colour name and the chat match groups are inputs (`Option` when no match).
- The clock (`System.currentTimeMillis`) is the `now` parameter. World block reads are the `blocks` and `wool` inputs. Lever positions (`leverPos`, rotation geometry) are an abstract function from lever to position.
- The water board's room scan (`scan`), with its coroutine, `delay` and the `runIn(10)` retry. `Solve` reports `Retry` instead of rescheduling itself.
- Gson loading of the solution file. The file is a `map` value, and JSON number arrays are integer sequences.
- The text helpers of the text input (`insert`, `deleteFromCursor`, `deleteWords`, `getNthWordFromCursor`, `getNthWordFromPos`, `moveCursorBy`, `getSelectedText`), the clipboard and key-code decoding. The helpers are function parameters and the decoded key is a `KeyPress` value.
- TerminalSolverModel.TerminalSolver.OnGuiLoad: requires at least 37 slots when a terminal is detected. With fewer slots, `subList` throws, and that failure is not modelled.
- TextInputModel.TextInput.SetSelectionStart: clamps the value. The setter computes `text.substring(0, value)` with the unclamped value, so an out-of-range value (only possible from a helper's result) throws there.
- WaterSolverModel.WaterKey: times are integers, so the `+ 0.01` WATER tie-break agrees with the double arithmetic only when distinct times differ by more than 0.01.
- WaterSolverModel.WaterSolver.WaterInteract: the counter is an unbounded `nat`, not a 32-bit `Int` that could wrap.
- TerminalSolverModel.TerminalSolver.SolveColor and WaterSolverModel.WaterSolver.Solve: the loops of `solveColor`, `solve` and `waterRender` are split into the helper methods `ScanColors`, `ReadExtendedSlots`, `LoadSolutions` and `OrderTexts`, which compute the same values.

## Findings

| source | as written | input that shows it | evidently intended | confidence | as-written member | corrected member |
|---|---|---|---|---|---|---|
| odinmain/src/main/kotlin/me/odinmain/features/impl/floor7/p3/TerminalSolver.kt:208-212 | the completion status is group 2 of the match, a single digit, compared with "(7/7)" and "(8/8)", so the test is always false and the section's last terminal never leaves the terminal | the player's own message "me completed a terminal! (7/7)" (groups "me", "7", "7") | compare "(done/total)" built from groups 2 and 3 with "(7/7)" and "(8/8)" | not executed | TerminalSolverModel.CompletesAsWrittenNever | TerminalSolverModel.TerminalSolver.OnChat |
