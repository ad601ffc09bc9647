/** The floor-7 terminal solver: recognising which terminal a chest GUI is from
    its title, computing the slots to click for each of the five terminal kinds,
    and the solver's own state (current terminal, solution, locked rubix colour,
    clicks needed). */
module TerminalSolverModel {
  import opened Common
  import opened StableSort

  // ---------------------------------------------------------------------
  // Terminal kinds and their recognition from the GUI title

  datatype TerminalType = Panes | Rubix | Order | StartsWith | Select | NoTerminal

  function GuiName(t: TerminalType): string
  {
    match t
    case Panes => "Correct all the panes!"
    case Rubix => "Change all to same color!"
    case Order => "Click in order!"
    case StartsWith => "What starts with:"
    case Select => "Select all the"
    case NoTerminal => "None"
  }

  /** The enum's entries, in declaration order. */
  const Entries: seq<TerminalType> := [Panes, Rubix, Order, StartsWith, Select, NoTerminal]

  /** The first entry at or after k whose GUI name starts the title (|Entries| if none). */
  function FindFrom(title: string, k: nat): (r: nat)
    requires k <= |Entries|
    ensures k <= r <= |Entries|
    ensures r < |Entries| ==> GuiName(Entries[r]) <= title
    ensures forall j :: k <= j < r ==> !(GuiName(Entries[j]) <= title)
    decreases |Entries| - k
  {
    if k == |Entries| then k
    else if GuiName(Entries[k]) <= title then k
    else FindFrom(title, k + 1)
  }

  /** No title starts with the GUI names of two different terminals. */
  lemma GuiNamesExclusive(t1: TerminalType, t2: TerminalType, title: string)
    requires t1 != t2
    ensures !(GuiName(t1) <= title && GuiName(t2) <= title)
  {
    var a, b := GuiName(t1), GuiName(t2);
    assert |a| >= 2 && |b| >= 2;
    assert a[0] != b[0] || a[1] != b[1];
    if a <= title {
      assert title[0] == a[0] && title[1] == a[1];
    }
  }

  /** A terminal kind's position among the entries. */
  function TermOrdinal(t: TerminalType): (r: nat)
    ensures r < |Entries| && Entries[r] == t
  {
    match t
    case Panes => 0
    case Rubix => 1
    case Order => 2
    case StartsWith => 3
    case Select => 4
    case NoTerminal => 5
  }

  /** `TerminalTypes.entries.find { title.startsWith(it.guiName) } ?: NONE`. */
  function DetectTerminal(title: string): (r: TerminalType)
    ensures forall t :: t != NoTerminal ==> (r == t <==> GuiName(t) <= title)
  {
    var k := FindFrom(title, 0);
    var r := if k < |Entries| then Entries[k] else NoTerminal;
    assert forall t :: t != NoTerminal ==> (r == t <==> GuiName(t) <= title) by {
      forall t | t != NoTerminal ensures r == t <==> GuiName(t) <= title {
        var j := TermOrdinal(t);
        if GuiName(t) <= title && r != t {
          assert k <= j < |Entries|;
          GuiNamesExclusive(t, r, title);
        }
      }
    }
    r
  }

  // ---------------------------------------------------------------------
  // Settings and the wrong-slot blocking rule

  datatype Settings = Settings(
    lockRubixSolution: bool,
    removeWrong: bool,
    removeWrongPanes: bool,
    removeWrongRubix: bool,
    removeWrongStartsWith: bool,
    removeWrongSelect: bool)

  /** Whether slots outside the solution are hidden for this terminal. */
  function ShouldBlockWrong(settings: Settings, term: TerminalType): (r: bool)
    ensures r ==> settings.removeWrong && term != NoTerminal
    ensures settings.removeWrong && term == Order ==> r
    ensures r <==> (settings.removeWrong
                    && (|| term == Order
                        || (term == Panes && settings.removeWrongPanes)
                        || (term == Rubix && settings.removeWrongRubix)
                        || (term == StartsWith && settings.removeWrongStartsWith)
                        || (term == Select && settings.removeWrongSelect)))
  {
    if !settings.removeWrong then false
    else
      match term
      case Panes => settings.removeWrongPanes
      case Rubix => settings.removeWrongRubix
      case Order => true
      case StartsWith => settings.removeWrongStartsWith
      case Select => settings.removeWrongSelect
      case NoTerminal => false
  }

  // ---------------------------------------------------------------------
  // Inventory

  /** The fields of an item stack the solvers look at. */
  datatype Item = Item(
    metadata: int,
    itemId: int,
    stackSize: int,
    enchanted: bool,
    unformattedName: string,
    unlocalizedName: string)

  type Slot = Option<Item>

  /** Item id of stained glass panes. */
  const PaneId := 160

  /** The chest part of a container: every slot but the 36 player slots and one more. */
  function ChestSlots(inventory: seq<Slot>): (items: seq<Slot>)
    requires |inventory| >= 37
    ensures |items| == |inventory| - 37
    ensures forall i :: 0 <= i < |items| ==> items[i] == inventory[i]
  {
    inventory[..|inventory| - 37]
  }

  /** Ascending positions of the slots that satisfy p (`filter { p }.map { items.indexOf(it) }`). */
  function FilterSlots(items: seq<Slot>, p: Slot -> bool): (r: seq<int>)
    ensures StrictlyIncreasing(r)
    ensures forall i :: i in r <==> 0 <= i < |items| && p(items[i])
  {
    if |items| == 0 then []
    else
      var prefix := FilterSlots(items[..|items| - 1], p);
      assert forall j :: 0 <= j < |prefix| ==> prefix[j] < |items| - 1 by {
        forall j | 0 <= j < |prefix| ensures prefix[j] < |items| - 1 {
          assert prefix[j] in prefix;
        }
      }
      prefix + (if p(items[|items| - 1]) then [|items| - 1] else [])
  }

  // Panes -----------------------------------------------------------------

  predicate IsRedPane(o: Slot)
  {
    o.Some? && o.value.metadata == 14
  }

  function SolvePanes(items: seq<Slot>): (r: seq<int>)
    ensures StrictlyIncreasing(r)
    ensures forall i :: i in r <==> 0 <= i < |items| && items[i].Some? && items[i].value.metadata == 14
  {
    FilterSlots(items, IsRedPane)
  }

  // Starts with -----------------------------------------------------------

  predicate StartsWithMatch(o: Slot, letter: string)
  {
    o.Some? && StartsWithIgnoreCase(o.value.unformattedName, letter) && !o.value.enchanted
  }

  function SolveStartsWith(items: seq<Slot>, letter: string): (r: seq<int>)
    ensures StrictlyIncreasing(r)
    ensures forall i :: i in r <==>
      0 <= i < |items| && items[i].Some?
      && StartsWithIgnoreCase(items[i].value.unformattedName, letter) && !items[i].value.enchanted
  {
    FilterSlots(items, o => StartsWithMatch(o, letter))
  }

  // Select ----------------------------------------------------------------

  predicate SelectMatch(o: Slot, color: string)
  {
    && o.Some?
    && !o.value.enchanted
    && ContainsIgnoreCase(o.value.unlocalizedName, color)
    && (color == "lightblue" || !ContainsIgnoreCase(o.value.unlocalizedName, "lightBlue"))
    && o.value.itemId != PaneId
  }

  function SolveSelect(items: seq<Slot>, color: string): (r: seq<int>)
    ensures StrictlyIncreasing(r)
    ensures forall i :: i in r <==>
      0 <= i < |items| && items[i].Some? && !items[i].value.enchanted
      && ContainsIgnoreCase(items[i].value.unlocalizedName, color)
      && (color == "lightblue" || !ContainsIgnoreCase(items[i].value.unlocalizedName, "lightBlue"))
      && items[i].value.itemId != PaneId
  {
    FilterSlots(items, o => SelectMatch(o, color))
  }

  // Order -----------------------------------------------------------------

  predicate IsOrderPane(o: Slot)
  {
    o.Some? && o.value.metadata == 14 && o.value.itemId == PaneId
  }

  /** The stack size in slot i (0 for an empty or missing slot). */
  function StackSizeAt(items: seq<Slot>, i: int): int
  {
    if 0 <= i < |items| && items[i].Some? then items[i].value.stackSize else 0
  }

  function SlotNumber(i: int): int { i }

  /** `filter { order pane }.sortedBy { stackSize }.map { items.indexOf(it) }`:
      the order panes' slots, stably sorted by the stack size in each slot
      (sorting the stacks and mapping each back to its slot, as the source
      does, gives the same list). */
  function SolveNumbers(items: seq<Slot>): (r: seq<int>)
    ensures forall i :: i in r <==> 0 <= i < |items| && IsOrderPane(items[i])
    ensures forall j, k :: 0 <= j < k < |r| ==> r[j] != r[k]
    ensures forall j, k :: 0 <= j < k < |r| ==> StackSizeAt(items, r[j]) <= StackSizeAt(items, r[k])
    ensures forall j, k :: 0 <= j < k < |r| && StackSizeAt(items, r[j]) == StackSizeAt(items, r[k]) ==> r[j] < r[k]
  {
    var slots := FilterSlots(items, IsOrderPane);
    var sorted := SortBy(slots, i => StackSizeAt(items, i));
    SortByLex(slots, i => StackSizeAt(items, i), SlotNumber);
    assert forall i :: i in sorted <==> i in slots by {
      forall i ensures i in sorted <==> i in slots {
        assert i in sorted <==> i in multiset(sorted);
        assert i in slots <==> i in multiset(slots);
      }
    }
    sorted
  }

  // Rubix -----------------------------------------------------------------

  /** The five pane colours of the rubix ring, in click order. */
  const ColorOrder: seq<int> := [1, 4, 13, 11, 14]

  /** Left clicks to turn ring position `pane` into ring position `most`. */
  function Dist(pane: int, most: int): (d: int)
    ensures 0 <= pane < 5 && 0 <= most < 5 ==>
      0 <= d < 5 && (d == 0 <==> pane == most) && (pane + d) % 5 == most
    ensures pane == -1 && 0 <= most < 5 ==> d == most + 1
  {
    if pane > most then (most + |ColorOrder|) - pane else most - pane
  }

  predicate IsRubixPane(o: Slot)
  {
    o.Some? && o.value.metadata != 15 && o.value.itemId == PaneId
  }

  /** How many times a slot appears in the candidate solution for colour `color`. */
  function ClicksFor(o: Slot, color: int): (n: nat)
    requires color in ColorOrder
    ensures n <= 5
    ensures n == 0 <==> !IsRubixPane(o) || o.value.metadata == color
    ensures IsRubixPane(o) ==>
      n == Dist(IndexOf(ColorOrder, o.value.metadata), IndexOf(ColorOrder, color))
  {
    if IsRubixPane(o) && o.value.metadata != color then
      Dist(IndexOf(ColorOrder, o.value.metadata), IndexOf(ColorOrder, color))
    else 0
  }

  /** Each position i repeated counts[i] times, positions in ascending order. */
  function Expand(counts: seq<nat>): (r: seq<int>)
    ensures forall j :: 0 <= j < |r| ==> 0 <= r[j] < |counts|
    ensures forall j, k :: 0 <= j < k < |r| ==> r[j] <= r[k]
  {
    if |counts| == 0 then []
    else
      var p := Expand(counts[..|counts| - 1]);
      var r := p + Repeat(counts[|counts| - 1], |counts| - 1);
      assert forall j :: |p| <= j < |r| ==> r[j] == |counts| - 1;
      r
  }

  lemma {:induction false} ExpandCount(counts: seq<nat>, i: int)
    ensures Count(Expand(counts), i) == if 0 <= i < |counts| then counts[i] else 0
  {
    if |counts| > 0 {
      var n := |counts| - 1;
      ExpandCount(counts[..n], i);
      CountAppend(Expand(counts[..n]), Repeat(counts[n], n), i);
      CountRepeat(counts[n], n, i);
    }
  }

  /** The clicks each slot needs to reach colour `color`. */
  function ClickCounts(items: seq<Slot>, color: int): (r: seq<nat>)
    requires color in ColorOrder
    ensures |r| == |items| && forall i :: 0 <= i < |items| ==> r[i] == ClicksFor(items[i], color)
  {
    seq(|items|, i requires 0 <= i < |items| => ClicksFor(items[i], color))
  }

  /** `panes.flatMap { Array(dist(...)) { pane } }.map { items.indexOf(it) }`:
      every slot, repeated as often as it needs clicks, in slot order. */
  function RubixCandidate(items: seq<Slot>, color: int): (r: seq<int>)
    requires color in ColorOrder
    ensures forall j :: 0 <= j < |r| ==> 0 <= r[j] < |items|
    ensures forall j, k :: 0 <= j < k < |r| ==> r[j] <= r[k]
  {
    Expand(ClickCounts(items, color))
  }

  /** Each slot appears in the candidate exactly as often as it needs clicks. */
  lemma RubixCandidateCount(items: seq<Slot>, color: int, i: int)
    requires color in ColorOrder
    ensures Count(RubixCandidate(items, color), i) == if 0 <= i < |items| then ClicksFor(items[i], color) else 0
  {
    ExpandCount(ClickCounts(items, color), i);
  }

  /** Three or four left clicks are done as two or one right clicks. */
  function ClickCost(count: int): int
  {
    if count >= 3 then 5 - count else count
  }

  predicate NoDuplicates(s: seq<int>)
  {
    forall j, k :: 0 <= j < k < |s| ==> s[j] != s[k]
  }

  /** Kotlin `distinct()`: first occurrences, in order. */
  function Distinct(s: seq<int>): (r: seq<int>)
    ensures NoDuplicates(r)
    ensures forall x :: x in r <==> x in s
  {
    if |s| == 0 then []
    else
      var p := Distinct(s[..|s| - 1]);
      if s[|s| - 1] in s[..|s| - 1] then p else p + [s[|s| - 1]]
  }

  function SumCost(ds: seq<int>, list: seq<int>): int
  {
    if |ds| == 0 then 0
    else SumCost(ds[..|ds| - 1], list) + ClickCost(Count(list, ds[|ds| - 1]))
  }

  /** The click cost of a rubix solution: per distinct slot, its count or 5 minus it. */
  function RealSize(list: seq<int>): int
  {
    SumCost(Distinct(list), list)
  }

  method GetRealSize(list: seq<int>) returns (size: int)
    ensures size == RealSize(list)
  {
    size := 0;
    var ds := Distinct(list);
    for k := 0 to |ds|
      invariant size == SumCost(ds[..k], list)
    {
      var count: int := Count(list, ds[k]);
      size := size + if count >= 3 then 5 - count else count;
      assert ds[..k + 1][..k] == ds[..k];
    }
    assert ds[..|ds|] == ds;
  }

  function SumCount(ds: seq<int>, list: seq<int>): nat
  {
    if |ds| == 0 then 0
    else SumCount(ds[..|ds| - 1], list) + Count(list, ds[|ds| - 1])
  }

  lemma {:induction false} CountNoDuplicates(s: seq<int>, x: int)
    requires NoDuplicates(s)
    ensures Count(s, x) == if x in s then 1 else 0
  {
    if |s| > 0 {
      CountNoDuplicates(s[..|s| - 1], x);
      assert s == s[..|s| - 1] + [s[|s| - 1]];
    }
  }

  lemma {:induction false} SumCountStep(ds: seq<int>, p: seq<int>, x: int)
    ensures SumCount(ds, p + [x]) == SumCount(ds, p) + Count(ds, x)
  {
    if |ds| > 0 {
      SumCountStep(ds[..|ds| - 1], p, x);
      assert (p + [x])[..|p|] == p;
    }
  }

  lemma {:induction false} SumCountDistinct(s: seq<int>)
    ensures SumCount(Distinct(s), s) == |s|
  {
    if |s| > 0 {
      var p, x := s[..|s| - 1], s[|s| - 1];
      assert s == p + [x];
      SumCountDistinct(p);
      var dp := Distinct(p);
      SumCountStep(dp, p, x);
      CountNoDuplicates(dp, x);
      if x !in p {
        assert Distinct(s) == dp + [x];
        assert (dp + [x])[..|dp|] == dp;
      }
    }
  }

  lemma {:induction false} SumCostBelowCount(ds: seq<int>, list: seq<int>)
    ensures SumCost(ds, list) <= SumCount(ds, list)
    ensures (forall j :: 0 <= j < |ds| ==> Count(list, ds[j]) <= 2) ==> SumCost(ds, list) == SumCount(ds, list)
  {
    if |ds| > 0 {
      SumCostBelowCount(ds[..|ds| - 1], list);
    }
  }

  /** Counting right clicks never makes a solution cost more clicks than its length. */
  lemma RealSizeAtMostLength(list: seq<int>)
    ensures RealSize(list) <= |list|
  {
    SumCostBelowCount(Distinct(list), list);
    SumCountDistinct(list);
  }

  /** When no slot needs three or more clicks, the cost is the length. */
  lemma RealSizeOfFewClicks(list: seq<int>)
    requires forall x :: x in list ==> Count(list, x) <= 2
    ensures RealSize(list) == |list|
  {
    var ds := Distinct(list);
    assert forall j :: 0 <= j < |ds| ==> Count(list, ds[j]) <= 2 by {
      forall j | 0 <= j < |ds| ensures Count(list, ds[j]) <= 2 {
        assert ds[j] in list;
      }
    }
    SumCostBelowCount(ds, list);
    SumCountDistinct(list);
  }

  /** The starting value of the unlocked search: the slots 0 to 99. */
  function InitialTemp(): (r: seq<int>)
    ensures |r| == 100 && forall i :: 0 <= i < 100 ==> r[i] == i
  {
    seq(100, i => i)
  }

  lemma InitialTempRealSize()
    ensures RealSize(InitialTemp()) == 100
  {
    forall x | x in InitialTemp() ensures Count(InitialTemp(), x) <= 2 {
      CountNoDuplicates(InitialTemp(), x);
    }
    RealSizeOfFewClicks(InitialTemp());
  }

  function RubixCost(items: seq<Slot>, k: int): int
    requires 0 <= k < |ColorOrder|
  {
    RealSize(RubixCandidate(items, ColorOrder[k]))
  }

  /** The cost of each ring colour's candidate, in ring order. */
  function RubixCosts(items: seq<Slot>): (costs: seq<int>)
    ensures |costs| == |ColorOrder|
    ensures forall k :: 0 <= k < |ColorOrder| ==> costs[k] == RubixCost(items, k)
  {
    seq(|ColorOrder|, k requires 0 <= k < |ColorOrder| => RubixCost(items, k))
  }

  /** `b` is the earliest position of a minimal cost, and that cost is below 100. */
  ghost predicate EarliestCheapest(costs: seq<int>, n: int, b: int)
    requires 0 <= n <= |costs|
  {
    && 0 <= b < n
    && costs[b] < 100
    && (forall j :: 0 <= j < n ==> costs[b] <= costs[j])
    && (forall j :: 0 <= j < b ==> costs[b] < costs[j])
  }

  /** What `solveColor` leaves behind: with a locked colour, that colour's
      candidate; otherwise the candidate of the earliest colour of minimal cost,
      recorded as the new rubix solution, unless no colour costs less than the
      100 of the starting value. */
  ghost predicate RubixOutcome(items: seq<Slot>, lock: bool, before: Option<int>, sol: seq<int>, after: Option<int>)
    requires before.Some? ==> before.value in ColorOrder
  {
    var costs := RubixCosts(items);
    if lock && before.Some? then
      sol == RubixCandidate(items, before.value) && after == before
    else if forall k :: 0 <= k < |costs| ==> costs[k] >= 100 then
      sol == InitialTemp() && after == before
    else
      exists b :: EarliestCheapest(costs, |costs|, b)
        && after == Some(ColorOrder[b]) && sol == RubixCandidate(items, ColorOrder[b])
  }

  /** After scanning the first k costs, `best` is the earliest position of a
      minimal cost below 100, or -1 when none is below 100. */
  ghost predicate BestSoFar(costs: seq<int>, k: int, best: int)
    requires 0 <= k <= |costs|
  {
    if best == -1 then forall j :: 0 <= j < k ==> costs[j] >= 100
    else EarliestCheapest(costs, k, best)
  }

  function ScanTemp(items: seq<Slot>, best: int): seq<int>
  {
    if 0 <= best < |ColorOrder| then RubixCandidate(items, ColorOrder[best]) else InitialTemp()
  }

  function ScanLast(best: int, before: Option<int>): Option<int>
  {
    if 0 <= best < |ColorOrder| then Some(ColorOrder[best]) else before
  }

  /** The size the scan compares against: 100 at the start, then the best cost so far. */
  lemma ScanTempSize(items: seq<Slot>, best: int)
    requires -1 <= best < |ColorOrder|
    ensures RealSize(ScanTemp(items, best)) == if best == -1 then 100 else RubixCosts(items)[best]
  {
    InitialTempRealSize();
  }

  /** One step of the scan: cost k replaces the best so far exactly when it is strictly cheaper. */
  lemma BestStep(costs: seq<int>, k: int, best: int, current: int)
    requires 0 <= k < |costs|
    requires BestSoFar(costs, k, best)
    requires current == if best == -1 then 100 else costs[best]
    ensures costs[k] < current ==> BestSoFar(costs, k + 1, k)
    ensures !(costs[k] < current) ==> BestSoFar(costs, k + 1, best)
  {
  }

  lemma BestOutcome(items: seq<Slot>, best: int, before: Option<int>)
    requires BestSoFar(RubixCosts(items), |ColorOrder|, best)
    requires before.Some? ==> before.value in ColorOrder
    ensures RubixOutcome(items, false, before, ScanTemp(items, best), ScanLast(best, before))
  {
    var costs := RubixCosts(items);
    if best != -1 {
      assert costs[best] < 100;
    }
  }

  /** The number drawn on a rubix slot that appears `needed` times: left clicks
      as a positive number, right clicks as a negative one. */
  function RubixLabel(needed: int): (shown: int)
    ensures 0 <= needed <= 5 ==> (if shown < 0 then -shown else shown) == ClickCost(needed)
    ensures 0 <= needed <= 5 ==> (shown < 0 <==> 3 <= needed <= 4)
  {
    if needed < 3 then needed else needed - 5
  }

  // ---------------------------------------------------------------------
  // Chat

  /** The three groups of a match of `(.+) (?:activated|completed) a (?:terminal|lever)! \((\d)/(\d)\)`:
      the player name and the two digits. */
  datatype ChatMatch = ChatMatch(playerName: string, done: char, total: char)

  /** The completion test as written: group 2 alone compared with "(7/7)" and "(8/8)". */
  predicate CompletesAsWritten(m: ChatMatch)
  {
    var completionStatus := [m.done];
    completionStatus == "(7/7)" || completionStatus == "(8/8)"
  }

  lemma CompletesAsWrittenNever(m: ChatMatch)
    ensures !CompletesAsWritten(m)
  {
    assert |[m.done]| == 1;
  }

  /** The completion test as intended: the status "(done/total)" is "(7/7)" or "(8/8)". */
  predicate Completes(m: ChatMatch)
  {
    var completionStatus := "(" + [m.done] + "/" + [m.total] + ")";
    completionStatus == "(7/7)" || completionStatus == "(8/8)"
  }

  lemma CompletesExactly(m: ChatMatch)
    ensures Completes(m) <==> m.done == m.total && (m.done == '7' || m.done == '8')
  {
    var s := "(" + [m.done] + "/" + [m.total] + ")";
    assert s[1] == m.done && s[3] == m.total;
    assert "(7/7)"[1] == '7' && "(7/7)"[3] == '7';
    assert "(8/8)"[1] == '8' && "(8/8)"[3] == '8';
    if m.done == m.total && m.done == '7' {
      assert s == "(7/7)";
    }
    if m.done == m.total && m.done == '8' {
      assert s == "(8/8)";
    }
  }

  /** The final terminal's message completes the section, the written test never fires. */
  lemma CompletionCounterexample()
    ensures Completes(ChatMatch("me", '7', '7')) && !CompletesAsWritten(ChatMatch("me", '7', '7'))
  {
    CompletesExactly(ChatMatch("me", '7', '7'));
    CompletesAsWrittenNever(ChatMatch("me", '7', '7'));
  }

  /** The unlocked search of `solveColor`: every ring colour's candidate in turn
      replaces the best so far when it is strictly cheaper. */
  method ScanColors(items: seq<Slot>, before: Option<int>) returns (temp: seq<int>, last: Option<int>)
    requires before.Some? ==> before.value in ColorOrder
    ensures last.Some? ==> last.value in ColorOrder
    ensures RubixOutcome(items, false, before, temp, last)
  {
    temp := InitialTemp();
    last := before;
    ghost var costs := RubixCosts(items);
    ghost var best := -1;
    for k := 0 to |ColorOrder|
      invariant -1 <= best < |ColorOrder| && BestSoFar(costs, k, best)
      invariant temp == ScanTemp(items, best)
      invariant last == ScanLast(best, before)
    {
      var color := ColorOrder[k];
      var temp2 := RubixCandidate(items, color);
      var size2 := GetRealSize(temp2);
      var size := GetRealSize(temp);
      ScanTempSize(items, best);
      BestStep(costs, k, best, size);
      if size2 < size {
        temp := temp2;
        last := Some(color);
        best := k;
      }
    }
    BestOutcome(items, best, before);
  }

  // ---------------------------------------------------------------------
  // The solver's state

  class TerminalSolver {
    var settings: Settings
    var currentTerm: TerminalType
    var solution: seq<int>
    var lastRubixSolution: Option<int>
    var clicksNeeded: int
    var openedTerminalTime: int

    ghost predicate Valid()
      reads this
    {
      lastRubixSolution.Some? ==> lastRubixSolution.value in ColorOrder
    }

    constructor (settings: Settings)
      ensures Valid()
      ensures this.settings == settings && currentTerm == NoTerminal && solution == []
      ensures lastRubixSolution == None && clicksNeeded == -1 && openedTerminalTime == 0
    {
      this.settings := settings;
      currentTerm := NoTerminal;
      solution := [];
      lastRubixSolution := None;
      clicksNeeded := -1;
      openedTerminalTime := 0;
    }

    method LeftTerm()
      modifies this
      ensures currentTerm == NoTerminal && solution == []
      ensures settings == old(settings) && lastRubixSolution == old(lastRubixSolution)
      ensures clicksNeeded == old(clicksNeeded) && openedTerminalTime == old(openedTerminalTime)
    {
      currentTerm := NoTerminal;
      solution := [];
    }

    method SolveColor(items: seq<Slot>)
      requires Valid()
      modifies this
      ensures Valid()
      ensures RubixOutcome(items, settings.lockRubixSolution, old(lastRubixSolution), solution, lastRubixSolution)
      ensures settings == old(settings) && currentTerm == old(currentTerm)
      ensures clicksNeeded == old(clicksNeeded) && openedTerminalTime == old(openedTerminalTime)
    {
      if lastRubixSolution.Some? && settings.lockRubixSolution {
        solution := RubixCandidate(items, lastRubixSolution.value);
      } else {
        solution, lastRubixSolution := ScanColors(items, lastRubixSolution);
      }
    }

    /** The solution of the current terminal from the chest's items; the
        "starts with" and "select" terminals keep their old solution until the
        title's letter or colour is known. */
    method SolveCurrent(inventory: seq<Slot>, letter: Option<string>, colorName: Option<string>)
      requires Valid()
      requires currentTerm != NoTerminal && |inventory| >= 37
      modifies this
      ensures Valid()
      ensures settings == old(settings) && currentTerm == old(currentTerm)
      ensures openedTerminalTime == old(openedTerminalTime)
      ensures currentTerm != Rubix ==> lastRubixSolution == old(lastRubixSolution)
      ensures currentTerm == Panes ==> solution == SolvePanes(ChestSlots(inventory)) && clicksNeeded == |solution|
      ensures currentTerm == Order ==> solution == SolveNumbers(ChestSlots(inventory)) && clicksNeeded == |solution|
      ensures currentTerm == Rubix ==>
        clicksNeeded == |solution|
        && RubixOutcome(ChestSlots(inventory), settings.lockRubixSolution, old(lastRubixSolution),
                        solution, lastRubixSolution)
      ensures currentTerm == StartsWith && letter.None? ==>
        solution == old(solution) && clicksNeeded == old(clicksNeeded)
      ensures currentTerm == StartsWith && letter.Some? ==>
        solution == SolveStartsWith(ChestSlots(inventory), letter.value) && clicksNeeded == |solution|
      ensures currentTerm == Select && colorName.None? ==>
        solution == old(solution) && clicksNeeded == old(clicksNeeded)
      ensures currentTerm == Select && colorName.Some? ==>
        solution == SolveSelect(ChestSlots(inventory), Lower(colorName.value)) && clicksNeeded == |solution|
    {
      var items := ChestSlots(inventory);
      match currentTerm {
        case Panes =>
          solution := SolvePanes(items);
        case Rubix =>
          SolveColor(items);
        case Order =>
          solution := SolveNumbers(items);
        case StartsWith =>
          if letter.None? {
            return;
          }
          solution := SolveStartsWith(items, letter.value);
        case Select =>
          if colorName.None? {
            return;
          }
          solution := SolveSelect(items, Lower(colorName.value));
      }
      clicksNeeded := |solution|;
    }

    method OnGuiLoad(title: string, inventory: seq<Slot>, letter: Option<string>, colorName: Option<string>, now: int)
      requires Valid()
      requires DetectTerminal(title) != NoTerminal ==> |inventory| >= 37
      modifies this
      ensures Valid()
      ensures settings == old(settings)
      ensures currentTerm == DetectTerminal(title)
      ensures openedTerminalTime == if currentTerm != old(currentTerm) then now else old(openedTerminalTime)
      ensures currentTerm != old(currentTerm) && currentTerm != Rubix ==> lastRubixSolution == None
      ensures currentTerm == old(currentTerm) && currentTerm != Rubix ==> lastRubixSolution == old(lastRubixSolution)
      ensures currentTerm == NoTerminal ==> solution == [] && clicksNeeded == old(clicksNeeded)
      ensures currentTerm == Panes ==> solution == SolvePanes(ChestSlots(inventory)) && clicksNeeded == |solution|
      ensures currentTerm == Order ==> solution == SolveNumbers(ChestSlots(inventory)) && clicksNeeded == |solution|
      ensures currentTerm == Rubix ==>
        clicksNeeded == |solution|
        && RubixOutcome(ChestSlots(inventory), settings.lockRubixSolution,
                        if old(currentTerm) == Rubix then old(lastRubixSolution) else None,
                        solution, lastRubixSolution)
      ensures currentTerm == StartsWith && letter.None? ==>
        solution == old(solution) && clicksNeeded == old(clicksNeeded)
      ensures currentTerm == StartsWith && letter.Some? ==>
        solution == SolveStartsWith(ChestSlots(inventory), letter.value) && clicksNeeded == |solution|
      ensures currentTerm == Select && colorName.None? ==>
        solution == old(solution) && clicksNeeded == old(clicksNeeded)
      ensures currentTerm == Select && colorName.Some? ==>
        solution == SolveSelect(ChestSlots(inventory), Lower(colorName.value)) && clicksNeeded == |solution|
    {
      var newTerm := DetectTerminal(title);
      if newTerm != currentTerm {
        currentTerm := newTerm;
        openedTerminalTime := now;
        lastRubixSolution := None;
      }
      if currentTerm == NoTerminal {
        LeftTerm();
      } else {
        SolveCurrent(inventory, letter, colorName);
      }
    }

    /** At the end of a client tick: leave the terminal when the player's own
        inventory is open or no terminal is current. */
    method OnTick(endPhase: bool, playerInventoryOpen: bool)
      modifies this
      ensures endPhase && (playerInventoryOpen || old(currentTerm) == NoTerminal) ==>
        currentTerm == NoTerminal && solution == []
      ensures !(endPhase && (playerInventoryOpen || old(currentTerm) == NoTerminal)) ==>
        currentTerm == old(currentTerm) && solution == old(solution)
      ensures settings == old(settings) && lastRubixSolution == old(lastRubixSolution)
      ensures clicksNeeded == old(clicksNeeded) && openedTerminalTime == old(openedTerminalTime)
    {
      if !endPhase {
        return;
      }
      if playerInventoryOpen || currentTerm == NoTerminal {
        LeftTerm();
      }
    }

    /** A completion message of this player for the last terminal or lever of a
        section leaves the terminal (with the completion test as intended). */
    method OnChat(m: Option<ChatMatch>, selfName: string)
      modifies this
      ensures m.Some? && m.value.playerName == selfName && Completes(m.value) ==>
        currentTerm == NoTerminal && solution == []
      ensures !(m.Some? && m.value.playerName == selfName && Completes(m.value)) ==>
        currentTerm == old(currentTerm) && solution == old(solution)
      ensures settings == old(settings) && lastRubixSolution == old(lastRubixSolution)
      ensures clicksNeeded == old(clicksNeeded) && openedTerminalTime == old(openedTerminalTime)
    {
      if m.None? {
        return;
      }
      if m.value.playerName != selfName {
        return;
      }
      if Completes(m.value) {
        LeftTerm();
      }
    }
  }
}
