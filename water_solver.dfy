/** The water board puzzle solver: classifying the board's variant from the
    blocks under the piston, reading which wool slots are extended, loading the
    lever timings for that board, counting lever clicks, and ordering the
    pending lever clicks for display. World reads are inputs; lever times are
    integers in a fixed unit (only their order and their comparison with 0
    matter). */
module WaterSolverModel {
  import opened Common
  import opened StableSort

  // ---------------------------------------------------------------------
  // Board variant

  /** The blocks the scan can meet under the piston head. */
  datatype Block = GoldBlock | HardenedClay | EmeraldBlock | QuartzBlock | DiamondBlock | OtherBlock

  datatype BlockFlags = BlockFlags(gold: bool, clay: bool, emerald: bool, quartz: bool, diamond: bool)

  /** Which kinds of block occur among the scanned ones. */
  function FlagsOf(blocks: seq<Block>): BlockFlags
  {
    BlockFlags(GoldBlock in blocks, HardenedClay in blocks, EmeraldBlock in blocks,
               QuartzBlock in blocks, DiamondBlock in blocks)
  }

  /** The scan over the blocks below the piston head, setting a flag per kind met. */
  method ScanBlocks(blocks: seq<Block>) returns (flags: BlockFlags)
    ensures flags == FlagsOf(blocks)
  {
    var foundGold, foundClay, foundEmerald, foundQuartz, foundDiamond := false, false, false, false, false;
    for k := 0 to |blocks|
      invariant foundGold <==> GoldBlock in blocks[..k]
      invariant foundClay <==> HardenedClay in blocks[..k]
      invariant foundEmerald <==> EmeraldBlock in blocks[..k]
      invariant foundQuartz <==> QuartzBlock in blocks[..k]
      invariant foundDiamond <==> DiamondBlock in blocks[..k]
    {
      assert blocks[..k + 1] == blocks[..k] + [blocks[k]];
      match blocks[k] {
        case GoldBlock => foundGold := true;
        case HardenedClay => foundClay := true;
        case EmeraldBlock => foundEmerald := true;
        case QuartzBlock => foundQuartz := true;
        case DiamondBlock => foundDiamond := true;
        case OtherBlock =>
      }
    }
    assert blocks[..|blocks|] == blocks;
    flags := BlockFlags(foundGold, foundClay, foundEmerald, foundQuartz, foundDiamond);
  }

  /** The block pair that identifies variant v. */
  predicate VariantPattern(f: BlockFlags, v: int)
  {
    if v == 0 then f.gold && f.clay
    else if v == 1 then f.emerald && f.quartz
    else if v == 2 then f.quartz && f.diamond
    else if v == 3 then f.gold && f.quartz
    else false
  }

  /** The first variant, in the order 0 to 3, whose block pair is present; -1 if none. */
  function Variant(f: BlockFlags): (v: int)
    ensures -1 <= v <= 3
    ensures v == -1 ==> forall w :: 0 <= w <= 3 ==> !VariantPattern(f, w)
    ensures v != -1 ==> VariantPattern(f, v) && forall w :: 0 <= w < v ==> !VariantPattern(f, w)
  {
    if f.gold && f.clay then 0
    else if f.emerald && f.quartz then 1
    else if f.quartz && f.diamond then 2
    else if f.gold && f.quartz then 3
    else -1
  }

  // ---------------------------------------------------------------------
  // Extended wool slots

  /** The ordinals of the extended wool colours (in ordinal order), one digit each. */
  function ExtendedKey(wool: seq<bool>): (key: string)
    requires |wool| <= 10
    ensures |key| <= |wool|
    ensures forall j :: 0 <= j < |key| ==> IsDigit(key[j]) && key[j] as int - '0' as int < |wool|
    ensures forall j, k :: 0 <= j < k < |key| ==> key[j] < key[k]
    ensures forall d :: 0 <= d < |wool| ==> (DigitChar(d) in key <==> wool[d])
  {
    if |wool| == 0 then ""
    else
      var n := |wool| - 1;
      var prefix := ExtendedKey(wool[..n]);
      assert forall d :: 0 <= d < n ==> wool[..n][d] == wool[d];
      assert DigitChar(n) !in prefix;
      prefix + (if wool[n] then [DigitChar(n)] else [])
  }

  // ---------------------------------------------------------------------
  // Levers and the solution table

  datatype LeverBlock = Quartz | Gold | Coal | Diamond | Emerald | Clay | Water | NoLever

  /** The enum's entries, in declaration order. */
  const Levers: seq<LeverBlock> := [Quartz, Gold, Coal, Diamond, Emerald, Clay, Water, NoLever]

  /** A lever's position among the entries. */
  function Ordinal(l: LeverBlock): (r: nat)
    ensures r < |Levers| && Levers[r] == l
  {
    match l
    case Quartz => 0
    case Gold => 1
    case Coal => 2
    case Diamond => 3
    case Emerald => 4
    case Clay => 5
    case Water => 6
    case NoLever => 7
  }

  /** The key a lever has in the solution file (NoLever has none; "" stands for that). */
  function LeverKey(l: LeverBlock): string
  {
    match l
    case Quartz => "minecraft:quartz_block"
    case Gold => "minecraft:gold_block"
    case Coal => "minecraft:coal_block"
    case Diamond => "minecraft:diamond_block"
    case Emerald => "minecraft:emerald_block"
    case Clay => "minecraft:hardened_clay"
    case Water => "minecraft:water"
    case NoLever => ""
  }

  /** The lever a key of the solution file stands for; any other key gives NoLever. */
  function LeverOf(key: string): (l: LeverBlock)
    ensures forall m :: m != NoLever ==> (l == m <==> key == LeverKey(m))
  {
    if key == "minecraft:quartz_block" then Quartz
    else if key == "minecraft:gold_block" then Gold
    else if key == "minecraft:coal_block" then Coal
    else if key == "minecraft:diamond_block" then Diamond
    else if key == "minecraft:emerald_block" then Emerald
    else if key == "minecraft:hardened_clay" then Clay
    else if key == "minecraft:water" then Water
    else NoLever
  }

  lemma LeverKeyRoundTrip(l: LeverBlock)
    requires l != NoLever
    ensures LeverOf(LeverKey(l)) == l
  {
  }

  type Times = seq<int>

  /** One solution object of the file: its (key, times) entries in file order. */
  type JsonObject = seq<(string, Times)>

  /** The whole file: variant -> extended-slot key -> solution object. */
  type SolutionTable = map<string, map<string, JsonObject>>

  /** A mutable map with insertion order (Kotlin's `mutableMapOf`): a list of
      entries with distinct keys. */
  type LeverMap = seq<(LeverBlock, Times)>

  predicate DistinctKeys(m: LeverMap)
  {
    forall j, k :: 0 <= j < k < |m| ==> m[j].0 != m[k].0
  }

  /** The position of lever l's entry, or -1. */
  function KeyIndex(m: LeverMap, l: LeverBlock): (r: int)
    ensures -1 <= r < |m|
    ensures r == -1 <==> forall j :: 0 <= j < |m| ==> m[j].0 != l
    ensures 0 <= r ==> m[r].0 == l && forall j :: 0 <= j < r ==> m[j].0 != l
  {
    if |m| == 0 then -1
    else if m[0].0 == l then 0
    else
      var k := KeyIndex(m[1..], l);
      assert forall j :: 0 <= j < |m| - 1 ==> m[1..][j] == m[j + 1];
      if k == -1 then -1 else k + 1
  }

  function Lookup(m: LeverMap, l: LeverBlock): (r: Option<Times>)
    ensures r.None? <==> forall j :: 0 <= j < |m| ==> m[j].0 != l
    ensures r.Some? ==> exists j :: 0 <= j < |m| && m[j] == (l, r.value)
  {
    var i := KeyIndex(m, l);
    if i == -1 then None else Some(m[i].1)
  }

  /** `m[l] = v`: replaces the value in place when l is a key, else appends. */
  function Put(m: LeverMap, l: LeverBlock, v: Times): (r: LeverMap)
    requires DistinctKeys(m)
    ensures DistinctKeys(r)
    ensures Lookup(r, l) == Some(v)
    ensures forall o :: o != l ==> Lookup(r, o) == Lookup(m, o)
    ensures Lookup(m, l).None? ==> r == m + [(l, v)]
    ensures Lookup(m, l).Some? ==> |r| == |m| && forall j :: 0 <= j < |m| ==> r[j].0 == m[j].0
  {
    var i := KeyIndex(m, l);
    if i == -1 then
      var r := m + [(l, v)];
      forall o ensures KeyIndex(r, o) == if o == l then |m| else KeyIndex(m, o) {
        KeyIndexAppend(m, (l, v), o);
      }
      r
    else
      var r := m[i := (l, v)];
      forall o ensures KeyIndex(r, o) == KeyIndex(m, o) {
        KeyIndexSameKeys(m, r, o);
      }
      r
  }

  /** Appending an entry finds it only when no earlier entry has its key. */
  lemma KeyIndexAppend(m: LeverMap, e: (LeverBlock, Times), o: LeverBlock)
    requires e.0 == o ==> KeyIndex(m, o) == -1
    ensures KeyIndex(m + [e], o) == if e.0 == o then |m| else KeyIndex(m, o)
  {
    var r := m + [e];
    var a, b := KeyIndex(r, o), KeyIndex(m, o);
    assert forall j :: 0 <= j < |m| ==> r[j] == m[j];
    if b != -1 {
      assert r[b].0 == o;
    } else if e.0 != o {
      assert r[|r| - 1].0 != o;
    } else {
      assert r[|m|].0 == o;
      assert forall j :: 0 <= j < |m| ==> r[j].0 != o;
    }
  }

  /** Lists with the same keys in the same order find each key at the same place. */
  lemma KeyIndexSameKeys(m: LeverMap, r: LeverMap, o: LeverBlock)
    requires |r| == |m| && forall j :: 0 <= j < |m| ==> r[j].0 == m[j].0
    ensures KeyIndex(r, o) == KeyIndex(m, o)
  {
    var a, b := KeyIndex(r, o), KeyIndex(m, o);
    if b != -1 {
      assert r[b].0 == o;
    }
    if a != -1 {
      assert m[a].0 == o;
    }
  }

  /** The value of the last entry whose key stands for lever l. */
  function LastFor(es: JsonObject, l: LeverBlock): Option<Times>
  {
    if |es| == 0 then None
    else if LeverOf(es[|es| - 1].0) == l then Some(es[|es| - 1].1)
    else LastFor(es[..|es| - 1], l)
  }

  /** The entries of a solution object put one by one into m. */
  function PutAll(m: LeverMap, es: JsonObject): (r: LeverMap)
    requires DistinctKeys(m)
    ensures DistinctKeys(r)
    ensures forall l :: Lookup(r, l) == if LastFor(es, l).Some? then LastFor(es, l) else Lookup(m, l)
    ensures |m| <= |r| && forall j :: 0 <= j < |m| ==> r[j].0 == m[j].0
  {
    if |es| == 0 then m
    else
      var e := es[|es| - 1];
      Put(PutAll(m, es[..|es| - 1]), LeverOf(e.0), e.1)
  }

  /** The position of the first entry of the solution object for lever l, or
      |es| when it has none. */
  function FirstAt(es: JsonObject, l: LeverBlock): (r: nat)
    ensures r <= |es|
    ensures r < |es| ==> LeverOf(es[r].0) == l
    ensures forall i :: 0 <= i < r ==> LeverOf(es[i].0) != l
  {
    if |es| == 0 then 0
    else
      var n := |es| - 1;
      var f := FirstAt(es[..n], l);
      if f < n then f
      else if LeverOf(es[n].0) == l then n
      else n + 1
  }

  lemma FirstAtPrefix(es: JsonObject, l: LeverBlock)
    requires |es| > 0 && FirstAt(es[..|es| - 1], l) < |es| - 1
    ensures FirstAt(es, l) == FirstAt(es[..|es| - 1], l)
  {
  }

  lemma {:induction false} LastForNone(es: JsonObject, l: LeverBlock)
    requires LastFor(es, l).None?
    ensures FirstAt(es, l) == |es|
  {
    if |es| > 0 {
      LastForNone(es[..|es| - 1], l);
    }
  }

  /** The keys of r from position base on each have an entry in es and come
      in the order of their first entries there. */
  predicate NewKeysInOrder(es: JsonObject, base: nat, r: LeverMap)
  {
    && (forall j :: base <= j < |r| ==> FirstAt(es, r[j].0) < |es|)
    && (forall j, k :: base <= j < k < |r| ==> FirstAt(es, r[j].0) < FirstAt(es, r[k].0))
  }

  /** Putting the entries keeps the old keys in place and appends each new
      lever once, in the order of its first entry in the object (the order a
      LinkedHashMap iterates in). */
  lemma {:induction false} PutAllOrder(m: LeverMap, es: JsonObject)
    requires DistinctKeys(m)
    ensures NewKeysInOrder(es, |m|, PutAll(m, es))
  {
    if |es| > 0 {
      var n := |es| - 1;
      var p := es[..n];
      var r', r := PutAll(m, p), PutAll(m, es);
      var l := LeverOf(es[n].0);
      var v := es[n].1;
      PutAllOrder(m, p);
      assert r == Put(r', l, v);
      if Lookup(r', l).None? {
        assert LastFor(p, l).None?;
        LastForNone(p, l);
        assert r == r' + [(l, v)];
        assert forall j :: 0 <= j < |r'| ==> r[j] == r'[j];
      } else {
        assert |r| == |r'| && forall j :: 0 <= j < |r'| ==> r[j].0 == r'[j].0;
      }
      PutOrderStep(es, |m|, r', r);
    }
  }

  lemma PutOrderStep(es: JsonObject, base: nat, r': LeverMap, r: LeverMap)
    requires |es| > 0 && base <= |r'| && NewKeysInOrder(es[..|es| - 1], base, r')
    requires |r'| <= |r| <= |r'| + 1 && forall j :: 0 <= j < |r'| ==> r[j].0 == r'[j].0
    requires |r| == |r'| + 1 ==>
      LeverOf(es[|es| - 1].0) == r[|r'|].0 && FirstAt(es[..|es| - 1], r[|r'|].0) == |es| - 1
    ensures NewKeysInOrder(es, base, r)
  {
    var n := |es| - 1;
    var p := es[..n];
    forall j | base <= j < |r'| ensures FirstAt(es, r[j].0) == FirstAt(p, r'[j].0) < n {
      var l := r'[j].0;
      assert r[j].0 == l && FirstAt(p, l) < |p|;
      FirstAtPrefix(es, l);
    }
    if |r| == |r'| + 1 {
      FirstAtNew(es, r[|r'|].0);
    }
    forall j, k | base <= j < k < |r| ensures FirstAt(es, r[j].0) < FirstAt(es, r[k].0) {
      if k < |r'| {
        assert FirstAt(p, r'[j].0) < FirstAt(p, r'[k].0);
      }
    }
  }

  lemma FirstAtNew(es: JsonObject, l: LeverBlock)
    requires |es| > 0 && LeverOf(es[|es| - 1].0) == l && FirstAt(es[..|es| - 1], l) == |es| - 1
    ensures FirstAt(es, l) == |es| - 1
  {
  }

  datatype SolveOutcome =
    | Retry            // the extended wool was not read as three slots: try again later
    | Solved           // the solutions for this board are loaded
    | MissingSolution  // the file has no entry for this variant and key (the lookup throws)

  /** Find the lever whose position is the clicked one, in declaration order. */
  function FindLever<P(==)>(pos: P, leverPos: LeverBlock -> P): (r: Option<LeverBlock>)
    ensures r.Some? ==>
      leverPos(r.value) == pos && forall i :: 0 <= i < Ordinal(r.value) ==> leverPos(Levers[i]) != pos
    ensures r.None? ==> forall l :: leverPos(l) != pos
  {
    var k := FindLeverFrom(pos, leverPos, 0);
    assert forall l :: Levers[Ordinal(l)] == l;
    if k < |Levers| then
      OrdinalAt(k);
      Some(Levers[k])
    else
      assert forall l :: leverPos(l) != pos by {
        forall l ensures leverPos(l) != pos {
          var j := Ordinal(l);
          assert 0 <= j < k && Levers[j] == l;
        }
      }
      None
  }

  lemma OrdinalAt(k: int)
    requires 0 <= k < |Levers|
    ensures Ordinal(Levers[k]) == k
  {
  }

  function FindLeverFrom<P(==)>(pos: P, leverPos: LeverBlock -> P, k: nat): (r: nat)
    requires k <= |Levers|
    ensures k <= r <= |Levers|
    ensures r < |Levers| ==> leverPos(Levers[r]) == pos
    ensures forall j :: k <= j < r ==> leverPos(Levers[j]) != pos
    decreases |Levers| - k
  {
    if k == |Levers| then k
    else if leverPos(Levers[k]) == pos then k
    else FindLeverFrom(pos, leverPos, k + 1)
  }

  // ---------------------------------------------------------------------
  // Ordering of the pending clicks (the computation behind the rendering)

  function ClicksOf(clicks: map<LeverBlock, nat>, l: LeverBlock): nat
  {
    if l in clicks then clicks[l] else 0
  }

  /** Every lever's times after its first `i` (already clicked) ones, paired with the lever. */
  function Pending(m: LeverMap, clicks: map<LeverBlock, nat>): (r: seq<(LeverBlock, int)>)
    ensures forall q :: q in r ==> Lookup(m, q.0).Some?
  {
    if |m| == 0 then []
    else
      var p, e := m[..|m| - 1], m[|m| - 1];
      var r := Pending(p, clicks) + PendingOf(e, clicks);
      assert forall q :: q in r ==> Lookup(m, q.0).Some? by {
        forall q | q in r ensures Lookup(m, q.0).Some? {
          if q in Pending(p, clicks) {
            var j := KeyIndex(p, q.0);
            assert m[j] == p[j];
          } else {
            var i :| 0 <= i < |PendingOf(e, clicks)| && PendingOf(e, clicks)[i] == q;
            assert m[|m| - 1].0 == q.0;
          }
        }
      }
      r
  }

  /** One lever's times after its clicked ones, paired with the lever. */
  function PendingOf(e: (LeverBlock, Times), clicks: map<LeverBlock, nat>): (r: seq<(LeverBlock, int)>)
    ensures |r| == |Drop(e.1, ClicksOf(clicks, e.0))|
    ensures forall j :: 0 <= j < |r| ==> r[j] == (e.0, e.1[ClicksOf(clicks, e.0) + j])
  {
    var own := Drop(e.1, ClicksOf(clicks, e.0));
    seq(|own|, j requires 0 <= j < |own| => (e.0, own[j]))
  }

  /** Clicks of a lever without an entry do not change the pending list. */
  lemma {:induction false} PendingIgnoresOther(m: LeverMap, clicks: map<LeverBlock, nat>, l: LeverBlock, c: nat)
    requires forall j :: 0 <= j < |m| ==> m[j].0 != l
    ensures Pending(m, clicks[l := c]) == Pending(m, clicks)
  {
    if |m| > 0 {
      PendingIgnoresOther(m[..|m| - 1], clicks, l, c);
    }
  }

  /** One more click of a lever that still has a time pending removes exactly
      one pending click: that lever paired with its first unclicked time. */
  lemma PendingAfterClick(m: LeverMap, clicks: map<LeverBlock, nat>, l: LeverBlock)
    requires DistinctKeys(m)
    requires Lookup(m, l).Some? && ClicksOf(clicks, l) < |Lookup(m, l).value|
    ensures |Pending(m, clicks[l := ClicksOf(clicks, l) + 1])| == |Pending(m, clicks)| - 1
    ensures multiset(Pending(m, clicks[l := ClicksOf(clicks, l) + 1]))
            + multiset{(l, Lookup(m, l).value[ClicksOf(clicks, l)])}
         == multiset(Pending(m, clicks))
  {
    var k := KeyIndex(m, l);
    var after := clicks[l := ClicksOf(clicks, l) + 1];
    PendingClickAt(m, clicks, l, k);
    assert Lookup(m, l).value == m[k].1;
    InsertOne(Pending(m[..k], clicks), (l, m[k].1[ClicksOf(clicks, l)]), PendingOf(m[k], after), Pending(m[k + 1..], clicks));
  }

  lemma InsertOne<T>(pre: seq<T>, x: T, own: seq<T>, post: seq<T>)
    ensures |pre + own + post| == |pre + ([x] + own) + post| - 1
    ensures multiset(pre + own + post) + multiset{x} == multiset(pre + ([x] + own) + post)
  {
  }

  /** The pending list around the clicked lever's entry k: the entries before
      and after it keep their pending clicks, its own loses the first one. */
  lemma PendingClickAt(m: LeverMap, clicks: map<LeverBlock, nat>, l: LeverBlock, k: nat)
    requires DistinctKeys(m)
    requires k < |m| && m[k].0 == l && ClicksOf(clicks, l) < |m[k].1|
    ensures Pending(m, clicks[l := ClicksOf(clicks, l) + 1])
         == Pending(m[..k], clicks) + PendingOf(m[k], clicks[l := ClicksOf(clicks, l) + 1]) + Pending(m[k + 1..], clicks)
    ensures Pending(m, clicks)
         == Pending(m[..k], clicks)
            + ([(l, m[k].1[ClicksOf(clicks, l)])] + PendingOf(m[k], clicks[l := ClicksOf(clicks, l) + 1]))
            + Pending(m[k + 1..], clicks)
  {
    var c := ClicksOf(clicks, l);
    var after := clicks[l := c + 1];
    var before, rest := m[..k], m[k + 1..];
    PendingSplit(m, clicks, k);
    PendingSplit(m, after, k);
    forall j | 0 <= j < |before| ensures before[j].0 != l {
      assert before[j] == m[j];
    }
    forall j | 0 <= j < |rest| ensures rest[j].0 != l {
      assert rest[j] == m[k + 1 + j];
    }
    PendingIgnoresOther(before, clicks, l, c + 1);
    PendingIgnoresOther(rest, clicks, l, c + 1);
    PendingOfClick(m[k], clicks, after);
  }

  /** The pending list of m splits at entry k. */
  lemma PendingSplit(m: LeverMap, clicks: map<LeverBlock, nat>, k: nat)
    requires k < |m|
    ensures Pending(m, clicks) == Pending(m[..k], clicks) + PendingOf(m[k], clicks) + Pending(m[k + 1..], clicks)
  {
    var pre, e, rest := m[..k], m[k], m[k + 1..];
    assert m == (pre + [e]) + rest;
    PendingAppend(pre + [e], rest, clicks);
    PendingAppend(pre, [e], clicks);
    PendingSingle(e, clicks);
  }

  lemma PendingSingle(e: (LeverBlock, Times), clicks: map<LeverBlock, nat>)
    ensures Pending([e], clicks) == PendingOf(e, clicks)
  {
    assert [e][..0] == [];
  }

  /** The pending list of two joined maps is the two pending lists joined. */
  lemma {:induction false} PendingAppend(a: LeverMap, b: LeverMap, clicks: map<LeverBlock, nat>)
    ensures Pending(a + b, clicks) == Pending(a, clicks) + Pending(b, clicks)
    decreases |b|
  {
    if |b| == 0 {
      assert a + b == a;
    } else {
      var n := |b| - 1;
      assert (a + b)[..|a + b| - 1] == a + b[..n];
      assert (a + b)[|a + b| - 1] == b[n];
      PendingAppend(a, b[..n], clicks);
      ConcatAssoc(Pending(a, clicks), Pending(b[..n], clicks), PendingOf(b[n], clicks));
    }
  }

  /** One more click of lever e.0 removes the first of its pending clicks. */
  lemma PendingOfClick(e: (LeverBlock, Times), clicks: map<LeverBlock, nat>, after: map<LeverBlock, nat>)
    requires ClicksOf(clicks, e.0) < |e.1| && ClicksOf(after, e.0) == ClicksOf(clicks, e.0) + 1
    ensures PendingOf(e, clicks) == [(e.0, e.1[ClicksOf(clicks, e.0)])] + PendingOf(e, after)
  {
    var a, b := PendingOf(e, clicks), PendingOf(e, after);
    assert |a| == |b| + 1;
    forall j | 0 <= j < |a| ensures a[j] == ([(e.0, e.1[ClicksOf(clicks, e.0)])] + b)[j] {
      if j > 0 {
        assert b[j - 1] == (e.0, e.1[ClicksOf(after, e.0) + j - 1]);
      }
    }
  }

  /** Sort key of a pending click: its time, and WATER after any other lever of equal time. */
  function WaterKey(p: (LeverBlock, int)): int
  {
    2 * p.1 + (if p.0 == Water then 1 else 0)
  }

  function SolutionList(m: LeverMap, clicks: map<LeverBlock, nat>): (r: seq<(LeverBlock, int)>)
    ensures SortedBy(r, WaterKey) && multiset(r) == multiset(Pending(m, clicks))
  {
    SortBy(Pending(m, clicks), WaterKey)
  }

  /** The pending clicks come in non-decreasing time, WATER last among equal
      times, as a stable permutation of the pending list. */
  lemma SolutionListOrdered(m: LeverMap, clicks: map<LeverBlock, nat>)
    ensures multiset(SolutionList(m, clicks)) == multiset(Pending(m, clicks))
    ensures forall j, k :: 0 <= j < k < |SolutionList(m, clicks)| ==>
      SolutionList(m, clicks)[j].1 <= SolutionList(m, clicks)[k].1
    ensures forall j, k ::
      (0 <= j < k < |SolutionList(m, clicks)| && SolutionList(m, clicks)[j].1 == SolutionList(m, clicks)[k].1
       && SolutionList(m, clicks)[j].0 == Water) ==> SolutionList(m, clicks)[k].0 == Water
    ensures forall v :: WithKey(SolutionList(m, clicks), WaterKey, v) == WithKey(Pending(m, clicks), WaterKey, v)
  {
    var s := SolutionList(m, clicks);
    forall j, k | 0 <= j < k < |s| ensures s[j].1 <= s[k].1 {
      assert WaterKey(s[j]) <= WaterKey(s[k]);
    }
    forall v ensures WithKey(s, WaterKey, v) == WithKey(Pending(m, clicks), WaterKey, v) {
      SortByStable(Pending(m, clicks), WaterKey, v);
    }
  }

  /** The non-zero pending times of all levers: each non-zero time as often
      as the pending list holds it. */
  function PendingNonZero(m: LeverMap, clicks: map<LeverBlock, nat>): (r: seq<int>)
    ensures forall t :: t in r ==> t != 0
    ensures |r| <= |Pending(m, clicks)|
    ensures forall t :: Count(r, t) == if t == 0 then 0 else Count(TimesOf(Pending(m, clicks)), t)
  {
    if |m| == 0 then []
    else
      var p, e := m[..|m| - 1], m[|m| - 1];
      var own := Drop(e.1, ClicksOf(clicks, e.0));
      PendingTimesLast(m, clicks);
      NonZeroAppend(PendingNonZero(p, clicks), TimesOf(Pending(p, clicks)), own);
      PendingNonZero(p, clicks) + NonZero(own)
  }

  /** The times of a list of pending clicks. */
  function TimesOf(ps: seq<(LeverBlock, int)>): (r: seq<int>)
    ensures |r| == |ps| && forall j :: 0 <= j < |ps| ==> r[j] == ps[j].1
  {
    seq(|ps|, j requires 0 <= j < |ps| => ps[j].1)
  }

  lemma PendingTimesLast(m: LeverMap, clicks: map<LeverBlock, nat>)
    requires |m| > 0
    ensures TimesOf(Pending(m, clicks))
         == TimesOf(Pending(m[..|m| - 1], clicks)) + Drop(m[|m| - 1].1, ClicksOf(clicks, m[|m| - 1].0))
  {
    var e := m[|m| - 1];
    var a, b := Pending(m[..|m| - 1], clicks), PendingOf(e, clicks);
    var own := Drop(e.1, ClicksOf(clicks, e.0));
    assert Pending(m, clicks) == a + b;
    forall j | 0 <= j < |a + b| ensures TimesOf(a + b)[j] == (TimesOf(a) + own)[j] {
      if j >= |a| {
        assert (a + b)[j] == b[j - |a|];
      }
    }
  }

  /** Appending a lever's times keeps the non-zero list in step with the pending times. */
  lemma NonZeroAppend(nz: seq<int>, times: seq<int>, own: seq<int>)
    requires forall t :: Count(nz, t) == if t == 0 then 0 else Count(times, t)
    ensures forall t :: Count(nz + NonZero(own), t) == if t == 0 then 0 else Count(times + own, t)
  {
    forall t ensures Count(nz + NonZero(own), t) == if t == 0 then 0 else Count(times + own, t) {
      CountAppend(nz, NonZero(own), t);
      CountAppend(times, own, t);
    }
  }

  /** The non-zero times, in order, each as often as it occurs. */
  function NonZero(ts: seq<int>): (r: seq<int>)
    ensures forall t :: t in r <==> t in ts && t != 0
    ensures forall t :: Count(r, t) == if t == 0 then 0 else Count(ts, t)
    ensures |r| <= |ts|
  {
    if |ts| == 0 then []
    else
      var p, x := ts[..|ts| - 1], ts[|ts| - 1];
      assert ts == p + [x];
      NonZeroStep(NonZero(p), p, x);
      NonZero(p) + (if x != 0 then [x] else [])
  }

  lemma NonZeroStep(rp: seq<int>, p: seq<int>, x: int)
    requires forall t :: Count(rp, t) == if t == 0 then 0 else Count(p, t)
    ensures forall t :: Count(rp + (if x != 0 then [x] else []), t) == if t == 0 then 0 else Count(p + [x], t)
  {
    var tail := if x != 0 then [x] else [];
    forall t ensures Count(rp + tail, t) == if t == 0 then 0 else Count(p + [x], t) {
      CountAppend(rp, tail, t);
      CountAppend(p, [x], t);
      assert [x][..0] == [];
    }
  }


  function Identity(t: int): int { t }

  /** The pending non-zero times in ascending order. */
  function SortedTimes(m: LeverMap, clicks: map<LeverBlock, nat>): (r: seq<int>)
    ensures SortedBy(r, Identity) && multiset(r) == multiset(PendingNonZero(m, clicks))
  {
    SortBy(PendingNonZero(m, clicks), Identity)
  }

  /** The number shown for a time: its 1-based position of first occurrence in the sorted times. */
  function Rank(sorted: seq<int>, t: int): nat
  {
    IndexOf(sorted, t) + 1
  }

  lemma {:induction false} CountLessInsert(s: seq<int>, x: int, t: int)
    ensures CountLess(Insert(s, x, Identity), t) == CountLess(s, t) + (if x < t then 1 else 0)
  {
    if |s| > 0 && Identity(s[0]) <= Identity(x) {
      CountLessInsert(s[1..], x, t);
      CountLessCons(s[0], Insert(s[1..], x, Identity), t);
      CountLessCons(s[0], s[1..], t);
      assert [s[0]] + s[1..] == s;
    } else {
      CountLessCons(x, s, t);
    }
  }

  lemma {:induction false} CountLessCons(x: int, s: seq<int>, t: int)
    ensures CountLess([x] + s, t) == (if x < t then 1 else 0) + CountLess(s, t)
  {
    if |s| > 0 {
      CountLessCons(x, s[..|s| - 1], t);
      assert ([x] + s)[..|s|] == [x] + s[..|s| - 1];
    }
  }

  lemma {:induction false} CountLessSorted(s: seq<int>, t: int)
    ensures CountLess(SortBy(s, Identity), t) == CountLess(s, t)
  {
    if |s| > 0 {
      CountLessSorted(s[..|s| - 1], t);
      CountLessInsert(SortBy(s[..|s| - 1], Identity), s[|s| - 1], t);
    }
  }

  /** In a sorted list, the first position of t is the number of elements below t. */
  lemma {:induction false} IndexOfSorted(s: seq<int>, t: int)
    requires SortedBy(s, Identity)
    requires t in s
    ensures IndexOf(s, t) == CountLess(s, t)
  {
    if s[0] == t {
      CountLessBelowHead(s);
    } else {
      var u := s[1..];
      SortedTail(s);
      var k :| 0 <= k < |s| && s[k] == t;
      assert u[k - 1] == t;
      IndexOfSorted(u, t);
      assert IndexOf(s, t) == IndexOf(u, t) + 1;
      assert s[0] < t by {
        assert Identity(s[0]) <= Identity(s[k]);
      }
      assert s == [s[0]] + u;
      CountLessCons(s[0], u, t);
    }
  }

  lemma SortedTail(s: seq<int>)
    requires |s| > 0 && SortedBy(s, Identity)
    ensures SortedBy(s[1..], Identity)
  {
    forall j, k | 0 <= j < k < |s| - 1 ensures Identity(s[1..][j]) <= Identity(s[1..][k]) {
      assert s[1..][j] == s[j + 1] && s[1..][k] == s[k + 1];
    }
  }

  /** Nothing in a sorted list lies below its first element. */
  lemma CountLessBelowHead(s: seq<int>)
    requires |s| > 0 && SortedBy(s, Identity)
    ensures CountLess(s, s[0]) == 0
  {
    forall j | 0 <= j < |s| ensures s[j] >= s[0] {
      assert Identity(s[0]) <= Identity(s[j]) || j == 0;
    }
    CountLessAbove(s, s[0]);
  }

  lemma {:induction false} CountLessAbove(s: seq<int>, t: int)
    requires forall j :: 0 <= j < |s| ==> s[j] >= t
    ensures CountLess(s, t) == 0
  {
    if |s| > 0 {
      CountLessAbove(s[..|s| - 1], t);
    }
  }

  lemma {:induction false} CountLessMonotone(s: seq<int>, t1: int, t2: int)
    requires t1 < t2 && t1 in s
    ensures CountLess(s, t1) < CountLess(s, t2)
  {
    var n := |s| - 1;
    if s[n] == t1 {
      CountLessWeaklyMonotone(s[..n], t1, t2);
    } else {
      assert t1 in s[..n];
      CountLessMonotone(s[..n], t1, t2);
    }
  }

  lemma {:induction false} CountLessWeaklyMonotone(s: seq<int>, t1: int, t2: int)
    requires t1 <= t2
    ensures CountLess(s, t1) <= CountLess(s, t2)
  {
    if |s| > 0 {
      CountLessWeaklyMonotone(s[..|s| - 1], t1, t2);
    }
  }

  /** The shown rank of a pending non-zero time is one more than the number of
      pending non-zero times below it, so equal times share a rank and larger
      times get larger ranks. */
  lemma RankOrder(m: LeverMap, clicks: map<LeverBlock, nat>, t1: int, t2: int)
    requires t1 in PendingNonZero(m, clicks) && t2 in PendingNonZero(m, clicks)
    ensures Rank(SortedTimes(m, clicks), t1) == CountLess(PendingNonZero(m, clicks), t1) + 1
    ensures t1 < t2 ==> Rank(SortedTimes(m, clicks), t1) < Rank(SortedTimes(m, clicks), t2)
  {
    var all := PendingNonZero(m, clicks);
    var sorted := SortedTimes(m, clicks);
    assert t1 in multiset(sorted) && t2 in multiset(sorted);
    IndexOfSorted(sorted, t1);
    IndexOfSorted(sorted, t2);
    CountLessSorted(all, t1);
    CountLessSorted(all, t2);
    if t1 < t2 {
      CountLessMonotone(all, t1, t2);
    }
  }

  /** The text after one pending time: "0" for a zero time, otherwise its rank,
      preceded by ", " unless it is the first. */
  function Piece(t: int, first: bool, sorted: seq<int>): string
  {
    if t == 0 then "0"
    else (if first then "" else ", ") + NatToString(Rank(sorted, t))
  }

  function Pieces(ts: seq<int>, sorted: seq<int>): string
  {
    if |ts| == 0 then ""
    else Pieces(ts[..|ts| - 1], sorted) + Piece(ts[|ts| - 1], |ts| == 1, sorted)
  }

  function Join(parts: seq<string>): string
  {
    if |parts| == 0 then ""
    else if |parts| == 1 then parts[0]
    else Join(parts[..|parts| - 1]) + ", " + parts[|parts| - 1]
  }

  /** The order text of a lever: what the loop accumulates, one piece per pending time. */
  method OrderText(ts: seq<int>, sorted: seq<int>) returns (text: string)
    ensures text == Pieces(ts, sorted)
  {
    text := "";
    for k := 0 to |ts|
      invariant text == Pieces(ts[..k], sorted)
      invariant |text| == 0 <==> k == 0
    {
      var t := ts[k];
      var piece;
      if t == 0 {
        piece := "0";
      } else {
        piece := (if |text| == 0 then "" else ", ") + NatToString(IndexOf(sorted, t) + 1);
      }
      assert piece == Piece(t, k == 0, sorted) && |piece| > 0;
      PiecesPrefix(ts, k, sorted);
      text := text + piece;
    }
    assert ts[..|ts|] == ts;
  }

  lemma PiecesPrefix(ts: seq<int>, k: int, sorted: seq<int>)
    requires 0 <= k < |ts|
    ensures Pieces(ts[..k + 1], sorted) == Pieces(ts[..k], sorted) + Piece(ts[k], k == 0, sorted)
  {
    assert ts[..k + 1][..k] == ts[..k];
  }

  /** The rank of each time, as text. */
  function Ranks(ts: seq<int>, sorted: seq<int>): (r: seq<string>)
    ensures |r| == |ts|
  {
    if |ts| == 0 then [] else Ranks(ts[..|ts| - 1], sorted) + [NatToString(Rank(sorted, ts[|ts| - 1]))]
  }

  /** Without zero times, the order text lists the ranks separated by ", ". */
  lemma {:induction false} PiecesWithoutZero(ts: seq<int>, sorted: seq<int>)
    requires forall j :: 0 <= j < |ts| ==> ts[j] != 0
    ensures Pieces(ts, sorted) == Join(Ranks(ts, sorted))
  {
    var n := |ts|;
    if n > 0 {
      var p := ts[..n - 1];
      var last := NatToString(Rank(sorted, ts[n - 1]));
      PiecesLast(ts, sorted);
      RanksLast(ts, sorted);
      if n == 1 {
        assert Pieces(p, sorted) == "" && Ranks(p, sorted) == [];
        assert "" + last == last && [] + [last] == [last];
      } else {
        assert forall j :: 0 <= j < |p| ==> p[j] == ts[j];
        PiecesWithoutZero(p, sorted);
        JoinSnoc(Ranks(p, sorted), last);
        ConcatAssoc(Pieces(p, sorted), ", ", last);
      }
    }
  }

  lemma PiecesLast(ts: seq<int>, sorted: seq<int>)
    requires |ts| > 0 && ts[|ts| - 1] != 0
    ensures Pieces(ts, sorted) == Pieces(ts[..|ts| - 1], sorted)
      + (if |ts| == 1 then "" else ", ") + NatToString(Rank(sorted, ts[|ts| - 1]))
  {
  }

  lemma RanksLast(ts: seq<int>, sorted: seq<int>)
    requires |ts| > 0
    ensures Ranks(ts, sorted) == Ranks(ts[..|ts| - 1], sorted) + [NatToString(Rank(sorted, ts[|ts| - 1]))]
  {
  }

  lemma JoinSnoc(parts: seq<string>, x: string)
    requires |parts| >= 1
    ensures Join(parts + [x]) == Join(parts) + ", " + x
  {
    assert (parts + [x])[..|parts|] == parts;
  }

  /** The loop that appends the ordinal of each extended wool colour. */
  method ReadExtendedSlots(wool: seq<bool>) returns (key: string)
    requires |wool| <= 10
    ensures key == ExtendedKey(wool)
  {
    key := "";
    for o := 0 to |wool|
      invariant key == ExtendedKey(wool[..o])
    {
      assert wool[..o + 1][..o] == wool[..o];
      if wool[o] {
        key := key + IntToString(o);
      }
    }
    assert wool[..|wool|] == wool;
  }

  /** The loop that puts every entry of a solution object into an empty map. */
  method LoadSolutions(obj: JsonObject) returns (m: LeverMap)
    ensures DistinctKeys(m) && m == PutAll([], obj)
  {
    m := [];
    for k := 0 to |obj|
      invariant DistinctKeys(m) && m == PutAll([], obj[..k])
    {
      assert obj[..k + 1][..k] == obj[..k];
      m := Put(m, LeverOf(obj[k].0), obj[k].1);
    }
    assert obj[..|obj|] == obj;
  }

  /** The order text of every lever, in the map's insertion order. */
  method OrderTexts(m: LeverMap, clicks: map<LeverBlock, nat>, sorted: seq<int>)
    returns (texts: seq<(LeverBlock, string)>)
    ensures |texts| == |m|
    ensures forall j :: 0 <= j < |m| ==>
      texts[j] == (m[j].0, Pieces(Drop(m[j].1, ClicksOf(clicks, m[j].0)), sorted))
  {
    texts := [];
    for k := 0 to |m|
      invariant |texts| == k
      invariant forall j :: 0 <= j < k ==>
        texts[j] == (m[j].0, Pieces(Drop(m[j].1, ClicksOf(clicks, m[j].0)), sorted))
    {
      var lever := m[k].0;
      var text := OrderText(Drop(m[k].1, ClicksOf(clicks, lever)), sorted);
      texts := texts + [(lever, text)];
    }
  }

  // ---------------------------------------------------------------------
  // The solver's state

  class WaterSolver {
    /** The solution file, loaded once. */
    const table: SolutionTable
    var variant: int
    var extendedSlots: string
    var solutions: LeverMap
    var openedWater: int
    /** `LeverBlock.i`: how many times each lever has been clicked. */
    var clicks: map<LeverBlock, nat>

    ghost predicate Valid()
      reads this
    {
      DistinctKeys(solutions) && forall l :: l in clicks
    }

    constructor (table: SolutionTable)
      ensures Valid()
      ensures this.table == table && variant == -1 && extendedSlots == "" && solutions == []
      ensures openedWater == -1 && forall l :: clicks[l] == 0
    {
      this.table := table;
      variant := -1;
      extendedSlots := "";
      solutions := [];
      openedWater := -1;
      clicks := map l: LeverBlock | l in Levers :: 0;
      new;
      assert forall l :: l in Levers by {
        forall l ensures l in Levers {
          assert Levers[Ordinal(l)] == l;
        }
      }
    }

    /** Read the board: variant, extended wool slots, and (when three slots are
        extended) the lever times of that board. */
    method Solve(blocks: seq<Block>, wool: seq<bool>) returns (outcome: SolveOutcome)
      requires Valid()
      requires |wool| == 5
      modifies this
      ensures Valid()
      ensures clicks == old(clicks) && openedWater == old(openedWater)
      ensures |ExtendedKey(wool)| != 3 ==>
        outcome == Retry && variant == -1 && extendedSlots == "" && solutions == old(solutions)
      ensures |ExtendedKey(wool)| == 3 ==>
        variant == Variant(FlagsOf(blocks)) && extendedSlots == ExtendedKey(wool)
      ensures |ExtendedKey(wool)| == 3 && IntToString(variant) in table && extendedSlots in table[IntToString(variant)] ==>
        outcome == Solved && solutions == PutAll([], table[IntToString(variant)][extendedSlots])
      ensures |ExtendedKey(wool)| == 3 && !(IntToString(variant) in table && extendedSlots in table[IntToString(variant)]) ==>
        outcome == MissingSolution && solutions == []
    {
      var flags := ScanBlocks(blocks);
      variant := Variant(flags);

      extendedSlots := ReadExtendedSlots(wool);

      if |extendedSlots| != 3 {
        extendedSlots := "";
        variant := -1;
        return Retry;
      }

      solutions := [];
      var variantKey := IntToString(variant);
      if !(variantKey in table && extendedSlots in table[variantKey]) {
        return MissingSolution;
      }
      solutions := LoadSolutions(table[variantKey][extendedSlots]);
      return Solved;
    }

    /** A block placement at `pos`: counts a click of the lever there, and the
        first click of the WATER lever starts the clock. */
    method WaterInteract<P(==)>(pos: P, leverPos: LeverBlock -> P, now: int)
      requires Valid()
      modifies this
      ensures Valid()
      ensures variant == old(variant) && extendedSlots == old(extendedSlots) && solutions == old(solutions)
      ensures |solutions| == 0 || FindLever(pos, leverPos).None? ==>
        clicks == old(clicks) && openedWater == old(openedWater)
      ensures |solutions| != 0 && FindLever(pos, leverPos).Some? ==>
        var l := FindLever(pos, leverPos).value;
        && clicks == old(clicks)[l := old(clicks)[l] + 1]
        && openedWater == if l == Water && old(openedWater) == -1 then now else old(openedWater)
    {
      if |solutions| == 0 {
        return;
      }
      var found := FindLever(pos, leverPos);
      if found.Some? {
        var l := found.value;
        clicks := clicks[l := clicks[l] + 1];
        if l != Water || openedWater != -1 {
          return;
        }
        openedWater := now;
      }
    }

    method Reset()
      requires Valid()
      modifies this
      ensures Valid()
      ensures variant == -1 && extendedSlots == "" && solutions == [] && openedWater == -1
      ensures forall l :: clicks[l] == 0
    {
      variant := -1;
      extendedSlots := "";
      solutions := [];
      openedWater := -1;
      for k := 0 to |Levers|
        invariant Valid()
        invariant variant == -1 && extendedSlots == "" && solutions == [] && openedWater == -1
        invariant forall j :: 0 <= j < k ==> clicks[Levers[j]] == 0
      {
        clicks := clicks[Levers[k] := 0];
      }
      forall l ensures clicks[l] == 0 {
        assert Levers[Ordinal(l)] == l;
      }
    }

    /** The computation behind one frame of rendering: the next click (what the
        tracer points at) and each lever's order text; nothing when the player
        is not in the water board room or no click is pending. */
    method WaterRender(inWaterBoard: bool) returns (first: Option<(LeverBlock, int)>, texts: seq<(LeverBlock, string)>)
      requires Valid()
      ensures !inWaterBoard || |SolutionList(solutions, clicks)| == 0 ==> first.None? && texts == []
      ensures inWaterBoard && |SolutionList(solutions, clicks)| != 0 ==>
        && first == Some(SolutionList(solutions, clicks)[0])
        && |texts| == |solutions|
        && forall j :: 0 <= j < |solutions| ==>
             texts[j] == (solutions[j].0,
                          Pieces(Drop(solutions[j].1, ClicksOf(clicks, solutions[j].0)), SortedTimes(solutions, clicks)))
    {
      first, texts := None, [];
      if !inWaterBoard {
        return;
      }
      var solutionList := SolutionList(solutions, clicks);
      var sortedSolutions := SortedTimes(solutions, clicks);
      if |solutionList| == 0 {
        return;
      }
      first := Some(solutionList[0]);
      texts := OrderTexts(solutions, clicks, sortedSolutions);
    }
  }
}
