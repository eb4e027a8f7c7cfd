/** What `freewalk` frees: the tables below an entry, level by level. */
module TableTree {
  import opened Sv39
  import opened PageSpace

  /** The keys of the level-1 and of the level-0 tables in the subtree of a table. */
  function SubMid(sp: Space, level: int, key: int): set<int> {
    if level == 2 then sp.mid.Keys else if level == 1 then {key} else {}
  }

  function SubLow(sp: Space, level: int, key: int): set<int> {
    if level == 2 then sp.low.Keys else if level == 1 then (set b | b in sp.low && b / 512 == key) else {key}
  }

  /** The part of the subtree below the first `i` entries of its table. */
  function DoneMid(sp: Space, level: int, i: int): set<int> {
    if level == 2 then (set a | a in sp.mid && a < i) else {}
  }

  function DoneLow(sp: Space, level: int, key: int, i: int): set<int> {
    if level == 2 then (set b | b in sp.low && b / 512 < i)
    else if level == 1 then (set b | b in sp.low && b / 512 == key && b % 512 < i)
    else {}
  }

  function TablesOf(sp: Space, mids: set<int>, lows: set<int>): set<int> {
    (set a | a in mids && a in sp.mid :: sp.mid[a]) + (set b | b in lows && b in sp.low :: sp.low[b])
  }

  /** The pages of a subtree. */
  function SubFrames(sp: Space, level: int, key: int): set<int> {
    (if level == 2 then {sp.root} else {}) + TablesOf(sp, SubMid(sp, level, key), SubLow(sp, level, key))
  }

  function DoneFrames(sp: Space, level: int, key: int, i: int): set<int> {
    TablesOf(sp, DoneMid(sp, level, i), DoneLow(sp, level, key, i))
  }

  /** Table `t` is the root of the subtree. */
  predicate IsNode(sp: Space, level: int, key: int, t: int) {
    match level
    case 2 => t == sp.root && key == 0
    case 1 => key in sp.mid && t == sp.mid[key]
    case 0 => key in sp.low && t == sp.low[key]
    case _ => false
  }

  /** The tables of the subtree are as the space says. */
  ghost predicate SubRep(tables: map<int, seq<Pte>>, sp: Space, level: int, key: int) {
    && (level == 2 ==> RootRep(tables, sp))
    && (forall a :: a in SubMid(sp, level, key) ==> MidRep(tables, sp, a))
    && (forall b :: b in SubLow(sp, level, key) ==> LowRep(tables, sp, b))
  }

  ghost predicate SpaceOk(sp: Space) {
    (forall k :: NestedAt(sp, k)) && (forall a, b :: Apart(sp, a, b))
  }

  /** The entry `i` of the root of a subtree. */
  function EntryOf(sp: Space, level: int, key: int, i: int): Pte {
    if level == 2 then RootEntry(sp, i) else if level == 1 then MidEntry(sp, key, i) else LowEntry(sp, key, i)
  }

  /** There is a table below entry `i`. */
  predicate HasChild(sp: Space, level: int, key: int, i: int) {
    (level == 2 && i in sp.mid) || (level == 1 && key * 512 + i in sp.low)
  }

  lemma NodeEntries(tables: map<int, seq<Pte>>, sp: Space, level: int, key: int, t: int)
    requires SpaceOk(sp) && SubRep(tables, sp, level, key) && IsNode(sp, level, key, t)
    ensures t in tables && |tables[t]| == 512 && forall i :: 0 <= i < 512 ==> tables[t][i] == EntryOf(sp, level, key, i)
  {
    assert level == 1 ==> MidRep(tables, sp, key);
    assert level == 0 ==> LowRep(tables, sp, key);
  }

  /** What `freewalk` sees at an entry: nothing, a table below, or a leaf. */
  lemma EntryMeans(sp: Space, level: int, key: int, i: int)
    requires SpaceOk(sp) && 0 <= level <= 2 && 0 <= i < 512 && 0 <= key && (level == 2 ==> key == 0)
    ensures var pte, child := EntryOf(sp, level, key, i), key * 512 + i;
            && (HasChild(sp, level, key, i) <==> pte.flags.v && !IsLeaf(pte))
            && (HasChild(sp, level, key, i) ==> IsNode(sp, level - 1, child, pte.frame))
            && (IsLeaf(pte) <==> level == 0 && child in sp.leaf)
  {
    assert NestedAt(sp, key * 512 + i);
  }

  lemma ChildKey(key: nat, i: nat)
    requires i < 512
    ensures (key * 512 + i) / 512 == key && (key * 512 + i) % 512 == i
    ensures forall b: int :: 0 <= b && b / 512 == key && b % 512 == i ==> b == key * 512 + i
  {
  }

  lemma DoneGrows(sp: Space, level: int, key: int, i: int)
    requires SpaceOk(sp) && 0 <= level <= 2 && 0 <= i < 512 && 0 <= key && (level == 2 ==> key == 0)
    ensures DoneFrames(sp, level, key, i + 1)
         == DoneFrames(sp, level, key, i) + if HasChild(sp, level, key, i)
           then SubFrames(sp, level - 1, key * 512 + i) else {}
  {
    ChildKey(key, i);
    forall b | b in sp.low ensures 0 <= b && b / 512 in sp.mid {
      assert NestedAt(sp, b);
    }
    var child := key * 512 + i;
    if level == 2 {
      assert DoneLow(sp, level, key, i + 1) == DoneLow(sp, level, key, i) + SubLow(sp, 1, child);
      assert DoneMid(sp, level, i + 1) == DoneMid(sp, level, i) + if i in sp.mid then {i} else {};
    } else if level == 1 {
      assert DoneLow(sp, level, key, i + 1) == DoneLow(sp, level, key, i) + if child in sp.low then {child} else {};
    }
  }

  lemma DoneAll(sp: Space, level: int, key: int, t: int)
    requires SpaceOk(sp) && 0 <= key && IsNode(sp, level, key, t)
    ensures SubFrames(sp, level, key) == DoneFrames(sp, level, key, 512) + {t} && t !in DoneFrames(sp, level, key, 512)
  {
    forall a | a in sp.mid ensures 0 <= a < 512 && sp.mid[a] != sp.root {
      assert NestedAt(sp, a) && Apart(sp, a, a);
    }
    forall b | b in sp.low ensures b / 512 in sp.mid && b / 512 < 512 && (level != 0 ==> sp.low[b] != t) {
      assert NestedAt(sp, b) && NestedAt(sp, b / 512) && Apart(sp, key, b);
    }
    if level == 2 {
      assert DoneLow(sp, level, key, 512) == sp.low.Keys && DoneMid(sp, level, 512) == sp.mid.Keys;
    } else if level == 1 {
      assert DoneLow(sp, level, key, 512) == SubLow(sp, level, key);
    }
  }

  // --- the loop over the entries -------------------------------------------------------------------

  /** A table whose first `i` entries have been cleared. */
  function Cleared(table: seq<Pte>, i: int): (r: seq<Pte>)
    requires 0 <= i <= |table|
    ensures |r| == |table| && forall j :: 0 <= j < |table| ==> r[j] == if j < i then ZERO else table[j]
  {
    seq(|table|, j requires 0 <= j < |table| => if j < i then ZERO else table[j])
  }

  /** The pages `gone` have moved from the tables to the free list. */
  ghost predicate FreedTables(m0: Mem, m: Mem, gone: set<int>) {
    && MemOk(m) && m.pages == m0.pages
    && m.tables == m0.tables - gone && FreeSet(m) == FreeSet(m0) + gone
  }

  /** The subtrees below the first `i` entries are freed. */
  ghost predicate WalkState(m0: Mem, m: Mem, sp: Space, level: int, key: int, t: int, i: int) {
    && MemOk(m) && m.pages == m0.pages
    && t in m0.tables && 0 <= i <= |m0.tables[t]|
    && m.tables == (m0.tables - DoneFrames(sp, level, key, i))[t := Cleared(m0.tables[t], i)]
    && FreeSet(m) == FreeSet(m0) + DoneFrames(sp, level, key, i)
  }

  lemma WalkStart(m: Mem, sp: Space, level: int, key: int, t: int)
    requires MemOk(m) && SpaceOk(sp) && t in m.tables && 0 <= key && 0 <= level <= 2
    ensures WalkState(m, m, sp, level, key, t, 0)
  {
    forall b | b in sp.low ensures 0 <= b {
      assert NestedAt(sp, b);
    }
    forall a | a in sp.mid ensures 0 <= a {
      assert NestedAt(sp, a);
    }
    assert DoneMid(sp, level, 0) == {} && DoneLow(sp, level, key, 0) == {};
    assert DoneFrames(sp, level, key, 0) == {};
    assert Cleared(m.tables[t], 0) == m.tables[t];
    assert (m.tables - {})[t := m.tables[t]] == m.tables;
  }

  /** The pages of a child are neither its parent nor among those freed before. */
  lemma ChildApart(sp: Space, level: int, key: int, t: int, i: int, f: int)
    requires SpaceOk(sp) && (level == 1 || level == 2) && 0 <= key && IsNode(sp, level, key, t) && 0 <= i < 512
    requires HasChild(sp, level, key, i) && f in SubFrames(sp, level - 1, key * 512 + i)
    ensures f != t && f !in DoneFrames(sp, level, key, i)
  {
    var child := key * 512 + i;
    ChildKey(key, i);
    if level == 2 && f == sp.mid[child] {
      assert forall a, b :: Apart(sp, a, b);
      assert Apart(sp, child, child);
      forall a | a in DoneMid(sp, level, i) ensures sp.mid[a] != f {
        assert Apart(sp, a, child);
      }
      forall b | b in DoneLow(sp, level, key, i) ensures sp.low[b] != f {
        assert Apart(sp, child, b);
      }
    } else {
      var b :| b in sp.low && b in SubLow(sp, level - 1, child) && f == sp.low[b];
      assert Apart(sp, key, b);
      forall a | a in DoneMid(sp, level, i) ensures sp.mid[a] != f {
        assert Apart(sp, a, b);
      }
      forall c | c in DoneLow(sp, level, key, i) ensures sp.low[c] != f {
        assert Apart(sp, c, b);
      }
    }
  }

  lemma ChildRep(m0: Mem, m: Mem, sp: Space, level: int, key: int, t: int, i: int)
    requires SpaceOk(sp) && SubRep(m0.tables, sp, level, key) && (level == 1 || level == 2) && 0 <= key
             && IsNode(sp, level, key, t)
    requires 0 <= i < 512 && HasChild(sp, level, key, i) && WalkState(m0, m, sp, level, key, t, i)
    ensures SubRep(m.tables, sp, level - 1, key * 512 + i)
  {
    var child := key * 512 + i;
    ChildKey(key, i);
    forall f | f in SubFrames(sp, level - 1, child) ensures SameTable(m0.tables, m.tables, f) {
      ChildApart(sp, level, key, t, i, f);
    }
    forall a | a in SubMid(sp, level - 1, child) ensures MidRep(m.tables, sp, a) {
      assert a in SubMid(sp, level, key) && MidRep(m0.tables, sp, a);
      assert a in sp.mid ==> sp.mid[a] in SubFrames(sp, level - 1, child);
      assert SameTable(m0.tables, m.tables, sp.mid[a]);
    }
    forall b | b in SubLow(sp, level - 1, child) ensures LowRep(m.tables, sp, b) {
      assert b in SubLow(sp, level, key) && LowRep(m0.tables, sp, b);
      assert b in sp.low ==> sp.low[b] in SubFrames(sp, level - 1, child);
      assert SameTable(m0.tables, m.tables, sp.low[b]);
    }
  }

  /** Freeing the child and clearing its entry. */
  lemma WalkChild(m0: Mem, m1: Mem, m2: Mem, sp: Space, level: int, key: int, t: int, i: int)
    requires SpaceOk(sp) && (level == 1 || level == 2) && 0 <= key && (level == 2 ==> key == 0)
             && IsNode(sp, level, key, t)
    requires WalkState(m0, m1, sp, level, key, t, i) && 0 <= i < 512 && |m0.tables[t]| == 512
             && HasChild(sp, level, key, i)
    requires FreedTables(m1, m2, SubFrames(sp, level - 1, key * 512 + i))
    ensures t in m2.tables && |m2.tables[t]| == 512 && WalkState(m0, SetEntry(m2, t, i, ZERO), sp, level, key, t, i + 1)
  {
    var gone, before := SubFrames(sp, level - 1, key * 512 + i), DoneFrames(sp, level, key, i);
    DoneGrows(sp, level, key, i);
    forall f | f in gone ensures f != t {
      ChildApart(sp, level, key, t, i, f);
    }
    WithoutBoth(m0.tables, m1.tables, m2.tables, before, gone, t, i);
    EntryClears(m2, t, i);
  }

  lemma EntryClears(m: Mem, t: int, i: int)
    requires MemOk(m) && t in m.tables && 0 <= i < |m.tables[t]|
    ensures MemOk(SetEntry(m, t, i, ZERO)) && FreeSet(SetEntry(m, t, i, ZERO)) == FreeSet(m)
  {
  }

  lemma WithoutBoth(tables0: map<int, seq<Pte>>, tables1: map<int, seq<Pte>>, tables2: map<int, seq<Pte>>,
                    before: set<int>, gone: set<int>, t: int, i: int)
    requires t in tables0 && 0 <= i < |tables0[t]| && t !in gone
    requires tables1 == (tables0 - before)[t := Cleared(tables0[t], i)] && tables2 == tables1 - gone
    ensures t in tables2 && tables2[t] == Cleared(tables0[t], i)
    ensures tables2[t := tables2[t][i := ZERO]] == (tables0 - (before + gone))[t := Cleared(tables0[t], i + 1)]
  {
    assert Cleared(tables0[t], i)[i := ZERO] == Cleared(tables0[t], i + 1);
  }

  /** An entry without a child. */
  lemma WalkSkip(m0: Mem, m: Mem, sp: Space, level: int, key: int, t: int, i: int)
    requires SpaceOk(sp) && 0 <= level <= 2 && 0 <= key && (level == 2 ==> key == 0)
    requires WalkState(m0, m, sp, level, key, t, i) && 0 <= i < 512 && |m0.tables[t]| == 512
    requires !HasChild(sp, level, key, i) && m0.tables[t][i] == ZERO
    ensures WalkState(m0, m, sp, level, key, t, i + 1)
  {
    DoneGrows(sp, level, key, i);
    assert Cleared(m0.tables[t], i + 1) == Cleared(m0.tables[t], i);
  }

  lemma WalkEnd(m0: Mem, m: Mem, sp: Space, level: int, key: int, t: int)
    requires SpaceOk(sp) && 0 <= key && IsNode(sp, level, key, t)
    requires WalkState(m0, m, sp, level, key, t, 512)
    ensures t in m.tables && m.tables - {t} == m0.tables - SubFrames(sp, level, key)
    ensures FreeSet(m) + {t} == FreeSet(m0) + SubFrames(sp, level, key)
  {
    DoneAll(sp, level, key, t);
  }
}
