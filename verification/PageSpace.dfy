/** Physical memory as `kalloc.c` and `vm.c` use it, and what a three-level page table stands for. */
module PageSpace {
  import opened Sv39

  /** Page frames by use: page-table pages, other allocated pages, and the free list. */
  datatype Mem = Mem(tables: map<int, seq<Pte>>, pages: map<int, seq<int>>, free: seq<int>)

  function FreeSet(m: Mem): set<int> {
    set f | f in m.free
  }

  ghost predicate MemOk(m: Mem) {
    && (forall i, j :: 0 <= i < j < |m.free| ==> m.free[i] != m.free[j])
    && (forall f :: f in m.free ==> 0 <= f && f !in m.tables && f !in m.pages)
    && (forall f :: f in m.tables ==> 0 <= f && f !in m.pages && |m.tables[f]| == 512)
    && (forall f :: f in m.pages ==> 0 <= f && |m.pages[f]| == PGSIZE)
  }

  /** An address space as a flat map.  `mid` and `low` are the page-table pages of levels 1 and 0,
      by the high digits of the page numbers that they serve; `leaf` is the flat map from page
      numbers to entries. */
  datatype Space = Space(root: int, mid: map<int, int>, low: map<int, int>, leaf: map<int, Pte>)

  /** A page-table page without entries. */
  function Zeros(): (t: seq<Pte>)
    ensures |t| == 512 && forall i :: 0 <= i < 512 ==> t[i] == ZERO
  {
    seq(512, i => ZERO)
  }

  function RootEntry(sp: Space, i: int): Pte {
    if i in sp.mid then Branch(sp.mid[i]) else ZERO
  }

  function MidEntry(sp: Space, a: int, i: int): Pte {
    if a * 512 + i in sp.low then Branch(sp.low[a * 512 + i]) else ZERO
  }

  function LowEntry(sp: Space, b: int, i: int): Pte {
    if b * 512 + i in sp.leaf then sp.leaf[b * 512 + i] else ZERO
  }

  ghost predicate RootRep(tables: map<int, seq<Pte>>, sp: Space) {
    sp.root in tables && |tables[sp.root]| == 512 && forall i :: 0 <= i < 512 ==> tables[sp.root][i] == RootEntry(sp, i)
  }

  ghost predicate MidRep(tables: map<int, seq<Pte>>, sp: Space, a: int) {
    a in sp.mid ==>
      && sp.mid[a] in tables && |tables[sp.mid[a]]| == 512
      && forall i :: 0 <= i < 512 ==> tables[sp.mid[a]][i] == MidEntry(sp, a, i)
  }

  ghost predicate LowRep(tables: map<int, seq<Pte>>, sp: Space, b: int) {
    b in sp.low ==>
      && sp.low[b] in tables && |tables[sp.low[b]]| == 512
      && forall i :: 0 <= i < 512 ==> tables[sp.low[b]][i] == LowEntry(sp, b, i)
  }

  /** The keys of each level lie under keys of the level above. */
  predicate NestedAt(sp: Space, k: int) {
    && (k in sp.mid ==> 0 <= k < 512)
    && (k in sp.low ==> 0 <= k && k / 512 in sp.mid)
    && (k in sp.leaf ==> 0 <= k && k / 512 in sp.low && IsLeaf(sp.leaf[k]))
  }

  /** No page-table page is used twice. */
  predicate Apart(sp: Space, a: int, b: int) {
    && (a in sp.mid ==> sp.mid[a] != sp.root)
    && (b in sp.low ==> sp.low[b] != sp.root)
    && (a in sp.mid && b in sp.low ==> sp.mid[a] != sp.low[b])
    && (a in sp.mid && b in sp.mid && a != b ==> sp.mid[a] != sp.mid[b])
    && (a in sp.low && b in sp.low && a != b ==> sp.low[a] != sp.low[b])
  }

  /** The table pages in memory stand for the space. */
  ghost predicate Rep(tables: map<int, seq<Pte>>, sp: Space) {
    && RootRep(tables, sp)
    && (forall k :: NestedAt(sp, k))
    && (forall a, b :: Apart(sp, a, b))
    && (forall a :: MidRep(tables, sp, a))
    && (forall b :: LowRep(tables, sp, b))
  }

  /** The page-table pages of the space. */
  function Frames(sp: Space): set<int> {
    {sp.root} + (set a | a in sp.mid :: sp.mid[a]) + (set b | b in sp.low :: sp.low[b])
  }

  // --- changing a table --------------------------------------------------------------------------

  function SetEntry(m: Mem, t: int, i: int, pte: Pte): Mem
    requires t in m.tables && 0 <= i < |m.tables[t]|
  {
    m.(tables := m.tables[t := m.tables[t][i := pte]])
  }

  /** A fresh page becomes an empty page-table page. */
  function AsTable(m: Mem, f: int): Mem {
    m.(pages := m.pages - {f}, tables := m.tables[f := Zeros()])
  }

  /** Other spaces do not notice changes to tables that are not theirs. */
  lemma RepElsewhere(tables: map<int, seq<Pte>>, tables': map<int, seq<Pte>>, sp: Space)
    requires Rep(tables, sp)
    requires forall f :: f in Frames(sp) ==> SameTable(tables, tables', f)
    ensures Rep(tables', sp)
  {
    assert SameTable(tables, tables', sp.root);
    forall a ensures MidRep(tables', sp, a) {
      assert MidRep(tables, sp, a);
      if a in sp.mid {
        assert SameTable(tables, tables', sp.mid[a]);
      }
    }
    forall b ensures LowRep(tables', sp, b) {
      assert LowRep(tables, sp, b);
      if b in sp.low {
        assert SameTable(tables, tables', sp.low[b]);
      }
    }
  }

  predicate SameTable(tables: map<int, seq<Pte>>, tables': map<int, seq<Pte>>, f: int) {
    f in tables ==> f in tables' && tables'[f] == tables[f]
  }

  lemma AddMid(tables: map<int, seq<Pte>>, sp: Space, a: int, f: int)
    requires Rep(tables, sp) && 0 <= a < 512 && a !in sp.mid && f !in tables
    ensures Rep(tables[f := Zeros()][sp.root := tables[sp.root][a := Branch(f)]], sp.(mid := sp.mid[a := f]))
  {
    var tables', sp' := tables[f := Zeros()][sp.root := tables[sp.root][a := Branch(f)]], sp.(mid := sp.mid[a := f]);
    forall i | 0 <= i < 512 ensures MidEntry(sp', a, i) == ZERO {
      assert NestedAt(sp, a * 512 + i) && (a * 512 + i) / 512 == a;
    }
    forall c ensures MidRep(tables', sp', c) && LowRep(tables', sp', c) && NestedAt(sp', c) {
      assert MidRep(tables, sp, c) && LowRep(tables, sp, c) && NestedAt(sp, c) && Apart(sp, c, c);
    }
    forall c, b ensures Apart(sp', c, b) {
      assert Apart(sp, c, b) && MidRep(tables, sp, c) && LowRep(tables, sp, b) && MidRep(tables, sp, b);
    }
  }

  lemma AddLow(tables: map<int, seq<Pte>>, sp: Space, b: int, f: int)
    requires Rep(tables, sp) && 0 <= b && b / 512 in sp.mid && b !in sp.low && f !in tables
    ensures var t := sp.mid[b / 512];
            && t in tables && |tables[t]| == 512
            && Rep(tables[f := Zeros()][t := tables[t][b % 512 := Branch(f)]], sp.(low := sp.low[b := f]))
  {
    var t := sp.mid[b / 512];
    assert MidRep(tables, sp, b / 512);
    var tables', sp' := tables[f := Zeros()][t := tables[t][b % 512 := Branch(f)]], sp.(low := sp.low[b := f]);
    forall i | 0 <= i < 512 ensures LowEntry(sp', b, i) == ZERO {
      assert NestedAt(sp, b * 512 + i) && (b * 512 + i) / 512 == b;
    }
    forall c ensures MidRep(tables', sp', c) && LowRep(tables', sp', c) && NestedAt(sp', c) {
      assert MidRep(tables, sp, c) && LowRep(tables, sp, c) && NestedAt(sp, c) && Apart(sp, b / 512, c)
          && Apart(sp, c, b / 512);
    }
    forall c, d ensures Apart(sp', c, d) {
      assert Apart(sp, c, d) && MidRep(tables, sp, c) && LowRep(tables, sp, c) && LowRep(tables, sp, d);
    }
    assert Apart(sp, b / 512, b / 512);
  }

  /** Writing one entry of a level-0 table changes the flat map at that page only. */
  lemma SetLeaf(tables: map<int, seq<Pte>>, sp: Space, v: int, pte: Pte)
    requires Rep(tables, sp) && 0 <= v && v / 512 in sp.low && (IsLeaf(pte) || pte == ZERO)
    ensures var t := sp.low[v / 512];
            && t in tables && |tables[t]| == 512
            && Rep(tables[t := tables[t][v % 512 := pte]],
                   sp.(leaf := if pte == ZERO then sp.leaf - {v} else sp.leaf[v := pte]))
  {
    var t := sp.low[v / 512];
    assert LowRep(tables, sp, v / 512);
    var tables' := tables[t := tables[t][v % 512 := pte]];
    var sp' := sp.(leaf := if pte == ZERO then sp.leaf - {v} else sp.leaf[v := pte]);
    forall c ensures MidRep(tables', sp', c) && NestedAt(sp', c) {
      assert MidRep(tables, sp, c) && NestedAt(sp, c) && Apart(sp, c, v / 512);
    }
    forall c ensures LowRep(tables', sp', c) {
      assert LowRep(tables, sp, c) && Apart(sp, c, v / 512);
    }
    forall c, d ensures Apart(sp', c, d) {
      assert Apart(sp, c, d);
    }
    assert Apart(sp, v / 512, v / 512);
  }

  // --- taking a free page for the table ---------------------------------------------------------------

  /** What an operation on one space may do to memory: it takes page-table pages from the free
      list and leaves every other table alone. */
  ghost predicate Kept(m: Mem, sp: Space, m': Mem, sp': Space) {
    && MemOk(m') && Rep(m'.tables, sp') && sp'.root == sp.root
    && |m'.free| <= |m.free| && FreeSet(m') <= FreeSet(m) && Frames(sp) <= Frames(sp')
    && FreeSet(m') + Frames(sp') == FreeSet(m) + Frames(sp)
    && m'.tables.Keys == m.tables.Keys + Frames(sp')
    && (forall f :: f in m.tables && f !in Frames(sp) ==> m'.tables[f] == m.tables[f])
  }

  lemma FramesAreTables(tables: map<int, seq<Pte>>, sp: Space)
    requires Rep(tables, sp)
    ensures Frames(sp) <= tables.Keys
  {
    forall a | a in sp.mid ensures sp.mid[a] in tables {
      assert MidRep(tables, sp, a);
    }
    forall b | b in sp.low ensures sp.low[b] in tables {
      assert LowRep(tables, sp, b);
    }
  }

  lemma KeptSame(m: Mem, sp: Space)
    requires MemOk(m) && Rep(m.tables, sp)
    ensures Kept(m, sp, m, sp)
  {
    FramesAreTables(m.tables, sp);
  }

  lemma KeptTrans(m: Mem, sp: Space, m1: Mem, sp1: Space, m2: Mem, sp2: Space)
    requires MemOk(m) && Kept(m, sp, m1, sp1) && Kept(m1, sp1, m2, sp2)
    ensures Kept(m, sp, m2, sp2)
  {
    forall f | f in m.tables && f !in Frames(sp) ensures m2.tables[f] == m.tables[f] {
      assert f !in FreeSet(m);
    }
  }

  /** The first free page becomes a page-table page, entered at index `i` of table `t`. */
  function NewTable(m: Mem, t: int, i: int): Mem
    requires m.free != [] && t in m.tables && 0 <= i < |m.tables[t]|
  {
    var f := m.free[0];
    m.(free := m.free[1..], tables := m.tables[f := Zeros()][t := m.tables[t][i := Branch(f)]])
  }

  lemma NewTableMem(m: Mem, t: int, i: int)
    requires MemOk(m) && m.free != [] && t in m.tables && 0 <= i < |m.tables[t]|
    ensures MemOk(NewTable(m, t, i)) && FreeSet(NewTable(m, t, i)) == FreeSet(m) - {m.free[0]} && m.free[0] !in m.tables
  {
    assert m.free == [m.free[0]] + m.free[1..];
    assert m.free[0] in m.free;
    assert forall f :: f in m.free[1..] ==> f in m.free && f != m.free[0];
  }

  lemma GrowMid(m: Mem, sp: Space, a: int)
    requires MemOk(m) && Rep(m.tables, sp) && m.free != [] && 0 <= a < 512 && a !in sp.mid
    ensures Kept(m, sp, NewTable(m, sp.root, a), sp.(mid := sp.mid[a := m.free[0]]))
  {
    NewTableMem(m, sp.root, a);
    AddMid(m.tables, sp, a, m.free[0]);
    FramesAreTables(m.tables, sp);
    assert m.free[0] in m.free;
    var sp' := sp.(mid := sp.mid[a := m.free[0]]);
    assert sp'.mid[a] == m.free[0] && forall c :: c in sp.mid ==> sp'.mid[c] == sp.mid[c];
    assert Frames(sp') == Frames(sp) + {m.free[0]};
  }

  lemma GrowLow(m: Mem, sp: Space, b: int)
    requires MemOk(m) && Rep(m.tables, sp) && m.free != [] && 0 <= b && b / 512 in sp.mid && b !in sp.low
    ensures var t := sp.mid[b / 512];
            && t in m.tables && |m.tables[t]| == 512
            && Kept(m, sp, NewTable(m, t, b % 512), sp.(low := sp.low[b := m.free[0]]))
  {
    var t := sp.mid[b / 512];
    assert MidRep(m.tables, sp, b / 512);
    NewTableMem(m, t, b % 512);
    AddLow(m.tables, sp, b, m.free[0]);
    FramesAreTables(m.tables, sp);
    assert m.free[0] in m.free;
    var sp' := sp.(low := sp.low[b := m.free[0]]);
    assert sp'.low[b] == m.free[0] && forall c :: c in sp.low ==> sp'.low[c] == sp.low[c];
    assert Frames(sp') == Frames(sp) + {m.free[0]};
  }

  // --- the walk down the levels ---------------------------------------------------------------------------

  /** The table that the walk for page `v` has reached at a level. */
  ghost predicate Reached(sp: Space, v: int, level: int, t: int) {
    match level
    case 2 => t == sp.root
    case 1 => v / 512 / 512 in sp.mid && t == sp.mid[v / 512 / 512]
    case 0 => v / 512 in sp.low && t == sp.low[v / 512]
    case _ => false
  }

  /** The digit of page `v` that indexes the table of a level. */
  function Digit(v: nat, level: nat): nat {
    if level == 0 then v % 512 else if level == 1 then v / 512 % 512 else v / 512 / 512
  }

  lemma {:induction false} KeyOfDigits(b: nat)
    ensures b / 512 * 512 + b % 512 == b
  {
  }

  /** What the walk reads: a branch to the next table, or nothing where the space has no table. */
  lemma WalkReads(tables: map<int, seq<Pte>>, sp: Space, v: nat, level: int, t: int)
    requires Rep(tables, sp) && (level == 1 || level == 2) && Reached(sp, v, level, t) && v / 512 / 512 < 512
    ensures t in tables && |tables[t]| == 512 && 0 <= Digit(v, level) < 512
    ensures var pte := tables[t][Digit(v, level)];
            && (pte.flags.v ==> Reached(sp, v, level - 1, pte.frame))
            && (!pte.flags.v ==> v / 512 !in sp.low && (level == 2 ==> v / 512 / 512 !in sp.mid))
  {
    assert NestedAt(sp, v / 512);
    if level == 1 {
      assert MidRep(tables, sp, v / 512 / 512);
      KeyOfDigits(v / 512);
      assert tables[t][v / 512 % 512] == MidEntry(sp, v / 512 / 512, v / 512 % 512);
    }
  }

  /** The space after the walk has added the missing table. */
  ghost function Extended(sp: Space, v: nat, level: int, f: int): Space {
    if level == 2 then sp.(mid := sp.mid[v / 512 / 512 := f]) else sp.(low := sp.low[v / 512 := f])
  }

  lemma WalkGrows(m: Mem, sp: Space, v: nat, level: int, t: int)
    requires MemOk(m) && Rep(m.tables, sp) && (level == 1 || level == 2) && Reached(sp, v, level, t)
             && v / 512 / 512 < 512
    requires t in m.tables && |m.tables[t]| == 512 && 0 <= Digit(v, level) < 512
             && !m.tables[t][Digit(v, level)].flags.v
    requires m.free != []
    ensures Kept(m, sp, NewTable(m, t, Digit(v, level)), Extended(sp, v, level, m.free[0]))
    ensures Reached(Extended(sp, v, level, m.free[0]), v, level - 1, m.free[0])
  {
    WalkReads(m.tables, sp, v, level, t);
    if level == 2 {
      GrowMid(m, sp, v / 512 / 512);
    } else {
      GrowLow(m, sp, v / 512);
    }
  }

  /** The entry of page `v` in its level-0 table is the flat map's. */
  lemma LeafReads(tables: map<int, seq<Pte>>, sp: Space, v: nat)
    requires Rep(tables, sp) && v / 512 in sp.low
    ensures var t := sp.low[v / 512];
            && t in tables && |tables[t]| == 512 && tables[t][v % 512] == (if v in sp.leaf then sp.leaf[v] else ZERO)
            && (v in sp.leaf <==> IsLeaf(tables[t][v % 512])) && (v in sp.leaf <==> tables[t][v % 512].flags.v)
  {
    assert NestedAt(sp, v);
    assert LowRep(tables, sp, v / 512);
    KeyOfDigits(v);
    assert tables[sp.low[v / 512]][v % 512] == LowEntry(sp, v / 512, v % 512);
  }

  // --- the words in memory --------------------------------------------------------------------------------

  /** The 64-bit word at `pa` is entry `i` of table `f`. */
  predicate WordAt(tables: map<int, seq<Pte>>, words: map<int, nat>, f: int, i: int) {
    f in tables && 0 <= i < |tables[f]| ==>
      && 0 <= tables[f][i].frame
      && f * PGSIZE + 8 * i in words && words[f * PGSIZE + 8 * i] == Encode(tables[f][i])
  }

  /** Physical memory holds the tables, each entry as a word. */
  ghost predicate InMemory(tables: map<int, seq<Pte>>, words: map<int, nat>) {
    forall f, i :: WordAt(tables, words, f, i)
  }

  function WordIn(words: map<int, nat>, pa: int): nat {
    if pa in words then words[pa] else 0
  }

  /** The translation of section 4.3.2 of the RISC-V Privileged Architecture, on words: the entry
      for `va` under the page-table page at `root`, or 0. */
  function Translate(words: map<int, nat>, root: int, va: nat): nat {
    var first := WordIn(words, root + 8 * Px(2, va));
    if !Has(first, 1) then 0
    else
      var second := WordIn(words, Pte2Pa(first) + 8 * Px(1, va));
      if !Has(second, 1) then 0 else WordIn(words, Pte2Pa(second) + 8 * Px(0, va))
  }

  lemma WordReads(tables: map<int, seq<Pte>>, words: map<int, nat>, f: int, i: int)
    requires InMemory(tables, words) && f in tables && 0 <= i < |tables[f]|
    ensures var pte, word := tables[f][i], WordIn(words, f * PGSIZE + 8 * i);
            && 0 <= pte.frame && word == Encode(pte) && Has(word, 1) == pte.flags.v
                 && Pte2Pa(word) == pte.frame * PGSIZE
  {
    assert WordAt(tables, words, f, i);
    PteRoundTrip(tables[f][i]);
  }

  /** The word that the hardware finds for an address is the entry that the flat map has for its
      page, for every address below MAXVA. */
  lemma TranslateIsFlat(tables: map<int, seq<Pte>>, words: map<int, nat>, sp: Space, va: nat)
    requires Rep(tables, sp) && InMemory(tables, words) && va < MAXVA
    ensures var v := va / PGSIZE;
            if v in sp.leaf then 0 <= sp.leaf[v].frame && Translate(words, sp.root * PGSIZE, va) == Encode(sp.leaf[v])
            else Translate(words, sp.root * PGSIZE, va) == 0
  {
    var v := va / PGSIZE;
    AddressDigits(va);
    assert NestedAt(sp, v) && NestedAt(sp, v / 512);
    WalkReads(tables, sp, v, 2, sp.root);
    WordReads(tables, words, sp.root, Digit(v, 2));
    var first := tables[sp.root][Digit(v, 2)];
    if first.flags.v {
      WalkReads(tables, sp, v, 1, first.frame);
      WordReads(tables, words, first.frame, Digit(v, 1));
      var second := tables[first.frame][Digit(v, 1)];
      if second.flags.v {
        LeafReads(tables, sp, v);
        WordReads(tables, words, second.frame, Digit(v, 0));
      }
    }
  }
}
