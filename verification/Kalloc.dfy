/** The kernel heap: slots of six sizes carved from pages, kept on free lists
    of their own size, one set of lists for each processor. */
module Kalloc {
  import opened Lists

  const MAGIC := 0xFDEAABEE
  const REDZONE := 16
  const METADATA := 16
  const PAGE := 4096
  const CLASSES := 6

  /** The size of the slots of class `k`. */
  function Bucket(k: nat): nat {
    match k
    case 0 => 64
    case 1 => 128
    case 2 => 256
    case 3 => 512
    case 4 => 1024
    case _ => 2048
  }

  /** The class a request of `size` bytes is served from; 6 for whole pages. */
  function ClassOf(size: nat): (k: nat)
    ensures k <= CLASSES
    ensures k < CLASSES ==> size + METADATA + 2 * REDZONE <= Bucket(k)
    ensures forall j | 0 <= j < k && j < CLASSES :: Bucket(j) < size + METADATA + 2 * REDZONE
  {
    var total := size + METADATA + 2 * REDZONE;
    if total <= 64 then 0 else if total <= 128 then 1 else if total <= 256 then 2
    else if total <= 512 then 3 else if total <= 1024 then 4 else if total <= 2048 then 5 else 6
  }

  /** A slot in memory.  `word` is its first word, the link of a free slot or
      the size of a used one; `zones` are the 32-bit words of the red zone
      before the data and of the one after it, four each. */
  datatype Slot = Slot(cls: nat, word: int, magic: nat, zones: seq<nat>)

  const WORDS := 8

  /** Both red zones are intact. */
  ghost predicate Intact(s: Slot) {
    |s.zones| == WORDS && forall i | 0 <= i < WORDS :: s.zones[i] == MAGIC
  }

  ghost predicate Filled(zones: seq<nat>, a: nat, b: nat) {
    b <= |zones| && forall i | a <= i < b :: zones[i] == MAGIC
  }

  /** `setup_redzone` on the four words from `from` on. */
  method SetupRedzone(zones: seq<nat>, from: nat) returns (r: seq<nat>)
    requires from + 4 <= |zones| == WORDS
    ensures |r| == WORDS && Filled(r, from, from + 4)
    ensures forall i | 0 <= i < WORDS && !(from <= i < from + 4) :: r[i] == zones[i]
  {
    r := zones;
    for i := 0 to 4
      invariant |r| == WORDS && Filled(r, from, from + i)
      invariant forall k | 0 <= k < WORDS && !(from <= k < from + i) :: r[k] == zones[k]
    {
      r := r[from + i := MAGIC];
    }
  }

  /** `check_redzone` on the four words from `from` on. */
  method CheckRedzone(zones: seq<nat>, from: nat) returns (ok: bool)
    requires from + 4 <= |zones|
    ensures ok <==> Filled(zones, from, from + 4)
  {
    for i := 0 to 4
      invariant Filled(zones, from, from + i)
    {
      if zones[from + i] != MAGIC { return false; }
    }
    return true;
  }

  /** Both red zones of a slot just taken are set up. */
  method SetupZones(zones: seq<nat>) returns (r: seq<nat>)
    requires |zones| == WORDS
    ensures r == Stamps()
  {
    r := SetupRedzone(zones, 0);
    r := SetupRedzone(r, 4);
  }

  method CheckZones(s: Slot) returns (ok: bool)
    requires |s.zones| == WORDS
    ensures ok <==> Intact(s)
  {
    ok := CheckRedzone(s.zones, 0);
    if ok { ok := CheckRedzone(s.zones, 4); }
  }

  function Stamps(): (r: seq<nat>)
    ensures |r| == WORDS && forall i | 0 <= i < WORDS :: r[i] == MAGIC
  {
    seq(WORDS, _ => MAGIC)
  }

  /** Processor and class of a free list. */
  datatype Key = Key(cpu: nat, cls: nat)

  datatype Heap = Heap(mem: map<nat, Slot>, head: map<Key, int>, count: map<Key, nat>)

  // ---- the free lists ----------------------------------------------------------

  ghost predicate LinkedAt(mem: map<nat, Slot>, list: seq<nat>, i: nat, cls: nat)
    requires i < |list|
  {
    list[i] in mem && mem[list[i]].cls == cls && mem[list[i]].word == After(list, i)
  }

  /** `list` is the free list of `key`: linked through the slots, all of that
      class, with the right count. */
  ghost predicate ListOk(h: Heap, key: Key, list: seq<nat>) {
    && key in h.head && key in h.count
    && h.head[key] == First(list) && h.count[key] == |list|
    && Distinct(list)
    && forall i | 0 <= i < |list| :: LinkedAt(h.mem, list, i, key.cls)
  }

  /** A slot in use holds the size it was asked for and the magic. */
  ghost predicate LiveOk(s: Slot, size: nat) {
    s.word == size && s.magic == MAGIC && s.cls == ClassOf(size) < CLASSES
  }

  ghost predicate Disjoint(mem: map<nat, Slot>) {
    forall a, b :: Apart(mem, a, b)
  }

  ghost predicate Apart(mem: map<nat, Slot>, a: nat, b: nat) {
    a in mem && b in mem && a < b ==> a + Bucket(mem[a].cls) <= b
  }

  /** `home` says which list a free slot is on: that one, and no other. */
  ghost predicate AtHome(list: seq<nat>, home: map<nat, Key>, key: Key) {
    forall a :: Lives(list, home, key, a)
  }

  ghost predicate Lives(list: seq<nat>, home: map<nat, Key>, key: Key, a: nat) {
    a in list <==> a in home && home[a] == key
  }

  ghost predicate KeyOk(h: Heap, lists: map<Key, seq<nat>>, home: map<nat, Key>, key: Key) {
    && (key in lists <==> key in h.head) && (key in lists <==> key in h.count)
    && (key in lists ==> key.cls < CLASSES && ListOk(h, key, lists[key]) && AtHome(lists[key], home, key))
  }

  ghost predicate Housed(lists: map<Key, seq<nat>>, home: map<nat, Key>, a: nat) {
    a in home ==> home[a] in lists
  }

  ghost predicate ListsOk(h: Heap, lists: map<Key, seq<nat>>, home: map<nat, Key>) {
    (forall key :: KeyOk(h, lists, home, key)) && (forall a :: Housed(lists, home, a))
  }

  /** A slot is in use or free, not both; a slot in use is sound; a slot that
      was handed out and came back has no magic. */
  ghost predicate SlotOk(mem: map<nat, Slot>, home: map<nat, Key>, live: map<nat, nat>, handed: set<nat>, a: nat) {
    && (a in mem ==> |mem[a].zones| == WORDS && (a in live <==> a !in home))
    && (a in live ==> a in mem && a in handed && LiveOk(mem[a], live[a]))
    && (a in handed ==> a in mem && (a in live || mem[a].magic == 0))
    && (a in home ==> a in mem)
  }

  ghost predicate SlotsOk(mem: map<nat, Slot>, home: map<nat, Key>, live: map<nat, nat>, handed: set<nat>) {
    forall a :: SlotOk(mem, home, live, handed, a)
  }

  /** Every slot is in use or on exactly one list, that of its class, whose
      count is right; slots do not overlap. */
  ghost predicate Inv(h: Heap, lists: map<Key, seq<nat>>, home: map<nat, Key>, live: map<nat, nat>, handed: set<nat>) {
    ListsOk(h, lists, home) && SlotsOk(h.mem, home, live, handed) && Disjoint(h.mem)
  }

  // ---- the steps on one list ---------------------------------------------------------

  /** Slot `a` is written over and put in front of the list of `key`. */
  function Push(h: Heap, key: Key, a: nat, s: Slot): Heap
    requires key in h.head && key in h.count
  {
    Heap(h.mem[a := s.(word := h.head[key])], h.head[key := a], h.count[key := h.count[key] + 1])
  }

  /** The first slot of the list of `key` is taken for `size` bytes. */
  function Pop(h: Heap, key: Key, size: nat): Heap
    requires key in h.head && key in h.count && h.head[key] >= 0 && h.head[key] in h.mem && h.count[key] > 0
  {
    var a := h.head[key];
    Heap(h.mem[a := Slot(h.mem[a].cls, size, MAGIC, Stamps())],
         h.head[key := h.mem[a].word], h.count[key := h.count[key] - 1])
  }

  lemma {:induction false} ListPushed(h: Heap, key: Key, list: seq<nat>, a: nat, s: Slot)
    requires ListOk(h, key, list) && a !in list && s.cls == key.cls
    ensures ListOk(Push(h, key, a, s), key, [a] + list)
  {
    var z, r := Push(h, key, a, s), [a] + list;
    forall i | 0 <= i < |r| ensures LinkedAt(z.mem, r, i, key.cls) {
      if i > 0 { assert LinkedAt(h.mem, list, i - 1, key.cls); }
    }
  }

  lemma {:induction false} ListElsewhere(h: Heap, z: Heap, key: Key, list: seq<nat>, a: nat)
    requires ListOk(h, key, list) && a !in list && key in z.head && key in z.count
    requires z.head[key] == h.head[key] && z.count[key] == h.count[key]
    requires forall b | b in h.mem && b != a :: b in z.mem && z.mem[b] == h.mem[b]
    ensures ListOk(z, key, list)
  {
    forall i | 0 <= i < |list| ensures LinkedAt(z.mem, list, i, key.cls) { assert LinkedAt(h.mem, list, i, key.cls); }
  }

  lemma {:induction false} ListPopped(h: Heap, key: Key, list: seq<nat>, size: nat)
    requires ListOk(h, key, list) && list != []
    ensures h.head[key] == list[0] && list[0] in h.mem && list[0] !in list[1..]
    ensures ListOk(Pop(h, key, size), key, list[1..])
  {
    assert LinkedAt(h.mem, list, 0, key.cls);
    var z, r := Pop(h, key, size), list[1..];
    forall i | 0 <= i < |r| ensures LinkedAt(z.mem, r, i, key.cls) { assert LinkedAt(h.mem, list, i + 1, key.cls); }
  }

  /** Who holds what: the free lists, the list of each free slot, the slots in
      use with their sizes, and the slots ever handed out. */
  datatype View = View(lists: map<Key, seq<nat>>, home: map<nat, Key>, live: map<nat, nat>, handed: set<nat>)

  ghost predicate Sound(h: Heap, v: View) {
    Inv(h, v.lists, v.home, v.live, v.handed)
  }

  ghost function Carved(v: View, key: Key, a: nat): View
    requires key in v.lists
  {
    v.(lists := v.lists[key := [a] + v.lists[key]], home := v.home[a := key])
  }

  /** Taking the first slot of the list of `key`. */
  ghost function Taken(v: View, key: Key, size: nat): View
    requires key in v.lists && v.lists[key] != []
  {
    var a := v.lists[key][0];
    View(v.lists[key := v.lists[key][1..]], v.home - {a}, v.live[a := size], v.handed + {a})
  }

  ghost function Given(v: View, key: Key, a: nat): View
    requires key in v.lists
  {
    View(v.lists[key := [a] + v.lists[key]], v.home[a := key], v.live - {a}, v.handed)
  }

  /** The address returned for slot `a`. */
  function Data(a: nat): nat {
    a + METADATA + REDZONE
  }

  ghost predicate Complete(v: View, cpus: nat) {
    forall c, k | 0 <= c < cpus && 0 <= k < CLASSES :: Key(c, k) in v.lists
  }

  /** The address `p` is that of a slot that was not in use and now is, for `size` bytes. */
  ghost predicate Serves(v: View, w: View, h: Heap, p: nat, size: nat) {
    p >= METADATA + REDZONE &&
    var a := p - (METADATA + REDZONE);
    && a !in v.live && w.live == v.live[a := size] && w.handed == v.handed + {a}
    && a in h.mem && h.mem[a].cls == ClassOf(size) && Intact(h.mem[a])
  }

  /** Only the list of `key` differs. */
  ghost predicate OnlyList(v: View, w: View, key: Key) {
    w.lists.Keys == v.lists.Keys && forall k | k in v.lists && k != key :: w.lists[k] == v.lists[k]
  }

  /** The slot at `a` came off the front of the list of `key`, which was refilled
      with a page first if it was empty. */
  ghost predicate FromList(v: View, w: View, key: Key, a: nat) {
    && OnlyList(v, w, key) && key in v.lists && key.cls < CLASSES
    && if v.lists[key] != [] then v.lists[key] == [a] + w.lists[key]
       else |w.lists[key]| == PerPage(key.cls) - 1
  }

  // ---- the steps keep the invariant ---------------------------------------------------

  lemma {:induction false} ListsPushed(h: Heap, lists: map<Key, seq<nat>>, home: map<nat, Key>, key: Key, a: nat,
                                       s: Slot)
    requires ListsOk(h, lists, home) && key in lists && key in h.head && key in h.count && a !in home
    requires s.cls == key.cls
    ensures ListsOk(Push(h, key, a, s), lists[key := [a] + lists[key]], home[a := key])
  {
    var z, ls, hm := Push(h, key, a, s), lists[key := [a] + lists[key]], home[a := key];
    forall k ensures KeyOk(z, ls, hm, k) {
      assert KeyOk(h, lists, home, k);
      if k in lists {
        assert Lives(lists[k], home, k, a);
        if k == key { ListPushed(h, key, lists[key], a, s); } else { ListElsewhere(h, z, k, lists[k], a); }
        forall b ensures Lives(ls[k], hm, k, b) { assert Lives(lists[k], home, k, b); }
      }
    }
    forall b ensures Housed(ls, hm, b) { assert Housed(lists, home, b); }
  }

  lemma {:induction false} FirstIsHome(h: Heap, lists: map<Key, seq<nat>>, home: map<nat, Key>, key: Key)
    requires ListsOk(h, lists, home) && key in lists && lists[key] != []
    ensures key in h.head && key in h.count && h.head[key] == lists[key][0] && h.count[key] == |lists[key]|
    ensures lists[key][0] in h.mem && lists[key][0] in home && h.mem[lists[key][0]].cls == key.cls
  {
    assert KeyOk(h, lists, home, key);
    assert Lives(lists[key], home, key, lists[key][0]) && LinkedAt(h.mem, lists[key], 0, key.cls);
  }

  lemma {:induction false} ListsPopped(h: Heap, lists: map<Key, seq<nat>>, home: map<nat, Key>, key: Key, size: nat)
    requires ListsOk(h, lists, home) && key in lists && lists[key] != []
    requires key in h.head && key in h.count && h.head[key] == lists[key][0] && h.count[key] == |lists[key]|
    requires lists[key][0] in h.mem
    ensures ListsOk(Pop(h, key, size), lists[key := lists[key][1..]], home - {lists[key][0]})
  {
    var a := lists[key][0];
    assert KeyOk(h, lists, home, key);
    ListPopped(h, key, lists[key], size);
    var z, ls, hm := Pop(h, key, size), lists[key := lists[key][1..]], home - {a};
    forall k ensures KeyOk(z, ls, hm, k) {
      assert KeyOk(h, lists, home, k);
      if k in lists {
        assert Lives(lists[k], home, k, a) && Lives(lists[key], home, key, a);
        if k != key { ListElsewhere(h, z, k, lists[k], a); } else { assert lists[k] == [a] + lists[k][1..]; }
        forall b ensures Lives(ls[k], hm, k, b) { assert Lives(lists[k], home, k, b); }
      }
    }
    forall b ensures Housed(ls, hm, b) { assert Housed(lists, home, b); }
  }

  lemma {:induction false} SlotsFreed(mem: map<nat, Slot>, home: map<nat, Key>, live: map<nat, nat>, handed: set<nat>,
                                      key: Key, a: nat, s: Slot)
    requires SlotsOk(mem, home, live, handed) && a in live && s.magic == 0 && |s.zones| == WORDS
    ensures SlotsOk(mem[a := s], home[a := key], live - {a}, handed)
  {
    var m, hm, lv, hd := mem[a := s], home[a := key], live - {a}, handed;
    forall b ensures SlotOk(m, hm, lv, hd, b) {
      assert SlotOk(mem, home, live, handed, b);
    }
  }

  lemma {:induction false} SlotsCarved(mem: map<nat, Slot>, home: map<nat, Key>, live: map<nat, nat>, handed: set<nat>,
                                       key: Key, a: nat, s: Slot)
    requires SlotsOk(mem, home, live, handed) && a !in mem && |s.zones| == WORDS
    ensures SlotsOk(mem[a := s], home[a := key], live, handed)
  {
    var m, hm, lv, hd := mem[a := s], home[a := key], live, handed;
    forall b ensures SlotOk(m, hm, lv, hd, b) {
      assert SlotOk(mem, home, live, handed, b);
    }
  }

  lemma {:induction false} SlotsTaken(mem: map<nat, Slot>, home: map<nat, Key>, live: map<nat, nat>, handed: set<nat>,
                                      a: nat, s: Slot, size: nat)
    requires SlotsOk(mem, home, live, handed) && a in home && LiveOk(s, size) && |s.zones| == WORDS
    ensures SlotsOk(mem[a := s], home - {a}, live[a := size], handed + {a})
  {
    var m, hm, lv, hd := mem[a := s], home - {a}, live[a := size], handed + {a};
    forall b ensures SlotOk(m, hm, lv, hd, b) {
      assert SlotOk(mem, home, live, handed, b);
    }
  }

  lemma {:induction false} DisjointKept(mem: map<nat, Slot>, a: nat, s: Slot)
    requires Disjoint(mem)
    requires if a in mem then s.cls == mem[a].cls
             else forall b | b in mem :: b + Bucket(mem[b].cls) <= a || a + Bucket(s.cls) <= b
    ensures Disjoint(mem[a := s])
  {
    var z := mem[a := s];
    forall x, y ensures Apart(z, x, y) { assert Apart(mem, x, y); }
  }

  /** A slot full of zeros. */
  function Blank(cls: nat): Slot {
    Slot(cls, 0, 0, seq(WORDS, _ => 0))
  }

  /** Freeing: a slot in use goes back, without its magic, to a list of its
      class, on whatever processor. */
  lemma {:induction false} FreeKeeps(h: Heap, v: View, key: Key, a: nat, s: Slot)
    requires Sound(h, v) && key in v.lists && a in v.live && key.cls == ClassOf(v.live[a])
    requires key in h.head && key in h.count && s == Blank(key.cls)
    ensures Sound(Push(h, key, a, s), Given(v, key, a))
  {
    assert SlotOk(h.mem, v.home, v.live, v.handed, a);
    ListsPushed(h, v.lists, v.home, key, a, s);
    SlotsFreed(h.mem, v.home, v.live, v.handed, key, a, s.(word := h.head[key]));
    DisjointKept(h.mem, a, s.(word := h.head[key]));
  }

  /** Carving: a new slot joins the list of its class. */
  lemma {:induction false} CarveKeeps(h: Heap, v: View, key: Key, a: nat, s: Slot)
    requires Sound(h, v) && key in v.lists && key in h.head && key in h.count
    requires a !in h.mem && s.cls == key.cls && |s.zones| == WORDS
    requires forall b | b in h.mem :: b + Bucket(h.mem[b].cls) <= a || a + Bucket(s.cls) <= b
    ensures Sound(Push(h, key, a, s), Carved(v, key, a))
  {
    assert SlotOk(h.mem, v.home, v.live, v.handed, a);
    ListsPushed(h, v.lists, v.home, key, a, s);
    SlotsCarved(h.mem, v.home, v.live, v.handed, key, a, s.(word := h.head[key]));
    DisjointKept(h.mem, a, s.(word := h.head[key]));
  }

  /** Allocating: the first slot of a list is used. */
  lemma {:induction false} AllocKeeps(h: Heap, v: View, key: Key, size: nat)
    requires Sound(h, v) && key in v.lists && v.lists[key] != [] && key.cls == ClassOf(size)
    ensures key in h.head && key in h.count && h.count[key] > 0
    ensures h.head[key] == v.lists[key][0] && v.lists[key][0] in h.mem && |h.mem[v.lists[key][0]].zones| == WORDS
    ensures Sound(Pop(h, key, size), Taken(v, key, size))
    ensures Serves(v, Taken(v, key, size), Pop(h, key, size), Data(v.lists[key][0]), size)
  {
    var a := v.lists[key][0];
    FirstIsHome(h, v.lists, v.home, key);
    assert SlotOk(h.mem, v.home, v.live, v.handed, a) && KeyOk(h, v.lists, v.home, key);
    ListsPopped(h, v.lists, v.home, key, size);
    var s := Slot(h.mem[a].cls, size, MAGIC, Stamps());
    SlotsTaken(h.mem, v.home, v.live, v.handed, a, s, size);
    DisjointKept(h.mem, a, s);
  }

  /** What two allocations in use may write, their red zones included, does not overlap. */
  lemma {:induction false} DataApart(h: Heap, v: View, a: nat, b: nat)
    requires Sound(h, v) && a in v.live && b in v.live && a < b
    ensures Data(a) + v.live[a] + REDZONE <= b
  {
    assert SlotOk(h.mem, v.home, v.live, v.handed, a) && SlotOk(h.mem, v.home, v.live, v.handed, b);
    assert Apart(h.mem, a, b);
  }

  // ---- the operations ------------------------------------------------------------------

  datatype Result = Null | Pages | Small(p: nat)

  /** All slots lie below `a` or above the page. */
  ghost predicate Clear(mem: map<nat, Slot>, a: nat, end: nat) {
    forall c | c in mem :: c + Bucket(mem[c].cls) <= a || end <= c
  }

  lemma {:induction false} CutStep(h: Heap, v: View, key: Key, a: nat, s: Slot, end: nat)
    requires Sound(h, v) && key in v.lists && key in h.head && key in h.count && s.cls == key.cls && |s.zones| == WORDS
    requires Clear(h.mem, a, end) && a + Bucket(key.cls) <= end
    ensures Sound(Push(h, key, a, s), Carved(v, key, a)) && Clear(Push(h, key, a, s).mem, a + Bucket(key.cls), end)
  {
    assert a !in h.mem by { assert Bucket(key.cls) > 0; }
    CarveKeeps(h, v, key, a, s);
  }

  /** Refilling the list of `key` has `left` slots to go, from address `a` to the end of the page. */
  ghost predicate Filling(v: View, z: Heap, w: View, key: Key, a: nat, left: nat, end: nat) {
    && Sound(z, w) && OnlyList(v, w, key) && w.live == v.live && w.handed == v.handed
    && key in v.lists && left <= PerPage(key.cls) && |w.lists[key]| == |v.lists[key]| + (PerPage(key.cls) - left)
    && Clear(z.mem, a, end) && a + Rest(key.cls, left) == end
  }

  lemma {:induction false} FillNext(v: View, z: Heap, w: View, key: Key, a: nat, left: nat, end: nat, s: Slot)
    requires Filling(v, z, w, key, a, left, end) && left > 0 && s.cls == key.cls && |s.zones| == WORDS
    requires key in z.head && key in z.count
    ensures Filling(v, Push(z, key, a, s), Carved(w, key, a), key, a + Bucket(key.cls), left - 1, end)
  {
    CutStep(z, w, key, a, s, end);
  }

  /** `KALLOC_REFILL`: cuts a new page into slots and puts them on the list of
      `key`; `junk` is what the memory of the page happens to hold. */
  method Refill(h: Heap, ghost v: View, key: Key, page: nat, junk: nat -> nat) returns (z: Heap, ghost w: View)
    requires Sound(h, v) && key in v.lists && Clear(h.mem, page, page + PAGE)
    ensures Filling(v, z, w, key, page + PAGE, 0, page + PAGE)
  {
    z, w := h, v;
    var left: nat, a: nat := PerPage(key.cls), page;
    WholePage(key.cls);
    while left > 0
      invariant Filling(v, z, w, key, a, left, page + PAGE)
    {
      var s := Slot(key.cls, 0, junk(a + 8), seq(WORDS, i requires i >= 0 => junk(a + METADATA + i)));
      assert KeyOk(z, w.lists, w.home, key);
      FillNext(v, z, w, key, a, left, page + PAGE, s);
      z, w := Push(z, key, a, s), Carved(w, key, a);
      a := a + Bucket(key.cls);
      left := left - 1;
    }
  }

  class Allocator {
    const cpus: nat
    var h: Heap
    ghost var v: View

    /** All lists exist and everything is in order. */
    ghost predicate Valid()
      reads this
    {
      Complete(v, cpus) && Sound(h, v)
    }

    constructor (n: nat)
      ensures Valid() && cpus == n && v.live == map[] && v.handed == {} && h.mem == map[]
    {
      cpus := n;
      var keys := set c, k | 0 <= c < n && 0 <= k < CLASSES :: Key(c, k);
      h := Heap(map[], map key | key in keys :: -1, map key | key in keys :: 0);
      v := View(map key | key in keys :: [], map[], map[], {});
    }

    /** `kalloc`: a slot that was not in use, of the smallest class that has
        room for the request, its header and its red zones.  Refilling uses the
        new page at `page`. */
    method Alloc(cpu: nat, size: nat, page: nat, junk: nat -> nat) returns (r: Result)
      requires Valid() && cpu < cpus && Clear(h.mem, page, page + PAGE)
      modifies this
      ensures Valid()
      ensures size == 0 ==> r == Null && h == old(h) && v == old(v)
      ensures size > 0 && ClassOf(size) == CLASSES ==> r == Pages && h == old(h) && v == old(v)
      ensures size > 0 && ClassOf(size) < CLASSES ==>
                && r.Small? && Serves(old(v), v, h, r.p, size)
                && FromList(old(v), v, Key(cpu, ClassOf(size)), r.p - (METADATA + REDZONE))
    {
      if size == 0 { return Null; }
      var key := Key(cpu, ClassOf(size));
      if key.cls == CLASSES { return Pages; }
      FillUp(key, page, junk);
      r := Take(key, size);
    }

    /** An empty list is refilled. */
    method FillUp(key: Key, page: nat, junk: nat -> nat)
      requires Valid() && key in v.lists && Clear(h.mem, page, page + PAGE)
      modifies this
      ensures Valid() && key in v.lists && v.lists[key] != [] && v.live == old(v.live) && v.handed == old(v.handed)
      ensures OnlyList(old(v), v, key)
      ensures if old(v.lists[key]) != [] then v == old(v) else |v.lists[key]| == PerPage(key.cls)
    {
      assert KeyOk(h, v.lists, v.home, key);
      if h.count[key] == 0 {
        var z, w := Refill(h, v, key, page, junk);
        h, v := z, w;
      }
    }

    method Take(key: Key, size: nat) returns (r: Result)
      requires Valid() && key in v.lists && v.lists[key] != [] && key.cls == ClassOf(size)
      modifies this
      ensures Valid()
      ensures r.Small? && Serves(old(v), v, h, r.p, size)
      ensures v == Taken(old(v), key, size) && r.p == Data(old(v.lists[key][0]))
    {
      AllocKeeps(h, v, key, size);
      var a := h.head[key];
      var s := h.mem[a];
      var zones := SetupZones(s.zones);
      h := Heap(h.mem[a := Slot(s.cls, size, MAGIC, zones)], h.head[key := s.word], h.count[key := h.count[key] - 1]);
      v := Taken(v, key, size);
      return Small(Data(a));
    }

    /** Somebody writes the word `w` to a red zone of an allocation in use. */
    method Overrun(a: nat, i: nat, w: nat)
      requires Valid() && a in v.live && i < WORDS
      modifies this`h
      ensures Valid() && Overwritten(old(h), h, a, i, w)
    {
      OverrunKeeps(h, v, a, i, w);
      h := h.(mem := h.mem[a := Written(h.mem[a], i, w)]);
    }

    /** `kfree2`: a slot in use with intact red zones goes back to the list of
        the class it came from, on the processor that frees it; anything else
        ever handed out, in particular a slot already freed, is left alone. */
    method Free2(cpu: nat, p: nat)
      requires Valid() && cpu < cpus && (p != 0 ==> p >= METADATA + REDZONE && p - (METADATA + REDZONE) in v.handed)
      modifies this
      ensures Valid()
      ensures p == 0 ==> h == old(h) && v == old(v)
      ensures p != 0 ==>
                var a := p - (METADATA + REDZONE);
                if a in old(v.live) && a in old(h.mem) && Intact(old(h.mem)[a]) then
                  var key := Key(cpu, old(h.mem)[a].cls);
                  key in old(v.lists) && v == Given(old(v), key, a)
                else h == old(h) && v == old(v)
    {
      if p == 0 { return; }
      var a := p - (METADATA + REDZONE);
      assert SlotOk(h.mem, v.home, v.live, v.handed, a);
      var s := h.mem[a];
      if s.magic != MAGIC { return; }
      var ok := CheckZones(s);
      if !ok { return; }
      var k := ClassOf(s.word);
      if k < CLASSES { Give(Key(cpu, k), a); }
    }

    method Give(key: Key, a: nat)
      requires Valid() && key in v.lists && a in v.live && key.cls == ClassOf(v.live[a])
      modifies this
      ensures Valid() && v == Given(old(v), key, a)
    {
      assert KeyOk(h, v.lists, v.home, key);
      FreeKeeps(h, v, key, a, Blank(key.cls));
      h, v := Push(h, key, a, Blank(key.cls)), Given(v, key, a);
    }
  }

  function Written(s: Slot, i: nat, w: nat): Slot
    requires i < |s.zones|
  {
    s.(zones := s.zones[i := w])
  }

  /** Word `i` of the red zones of slot `a` is now `w`, and nothing else has changed. */
  ghost predicate Overwritten(h: Heap, z: Heap, a: nat, i: nat, w: nat) {
    && a in h.mem && a in z.mem && i < |h.mem[a].zones| == WORDS
    && z == h.(mem := h.mem[a := Written(h.mem[a], i, w)])
  }

  /** Writing to the red zones of a slot in use keeps everything in order; only
      a later free is refused. */
  lemma {:induction false} OverrunKeeps(h: Heap, v: View, a: nat, i: nat, w: nat)
    requires Sound(h, v) && a in v.live && i < WORDS
    ensures a in h.mem && |h.mem[a].zones| == WORDS
    ensures Sound(h.(mem := h.mem[a := Written(h.mem[a], i, w)]), v)
  {
    assert SlotOk(h.mem, v.home, v.live, v.handed, a);
    var s := Written(h.mem[a], i, w);
    ListsBeside(h, v.lists, v.home, a, s);
    DisjointKept(h.mem, a, s);
    var m := h.mem[a := s];
    forall b ensures SlotOk(m, v.home, v.live, v.handed, b) {
      assert SlotOk(h.mem, v.home, v.live, v.handed, b);
    }
  }

  /** The red zones are intact afterwards if and only if the word written is the
      one that belongs there and all others were. */
  lemma {:induction false} OverrunShows(h: Heap, z: Heap, a: nat, i: nat, w: nat)
    requires Overwritten(h, z, a, i, w)
    ensures Intact(z.mem[a]) <==> w == MAGIC && forall k | 0 <= k < WORDS && k != i :: h.mem[a].zones[k] == MAGIC
  {
    assert z.mem[a].zones[i] == w;
    forall k | 0 <= k < WORDS && k != i ensures z.mem[a].zones[k] == h.mem[a].zones[k] { }
  }

  lemma {:induction false} ListsBeside(h: Heap, lists: map<Key, seq<nat>>, home: map<nat, Key>, a: nat, s: Slot)
    requires ListsOk(h, lists, home) && a !in home
    ensures ListsOk(h.(mem := h.mem[a := s]), lists, home)
  {
    var z := h.(mem := h.mem[a := s]);
    forall key ensures KeyOk(z, lists, home, key) {
      assert KeyOk(h, lists, home, key);
      if key in lists {
        assert Lives(lists[key], home, key, a);
        ListElsewhere(h, z, key, lists[key], a);
      }
    }
  }

  /** A slot freed and not handed out again carries no magic, so a second free
      finds nothing to do. */
  lemma {:induction false} FreedHasNoMagic(h: Heap, v: View, a: nat)
    requires Sound(h, v) && a in v.handed && a !in v.live
    ensures a in h.mem && h.mem[a].magic != MAGIC && a in v.home
  {
    assert SlotOk(h.mem, v.home, v.live, v.handed, a);
  }

  function PerPage(k: nat): nat {
    match k
    case 0 => 64
    case 1 => 32
    case 2 => 16
    case 3 => 8
    case 4 => 4
    case _ => 2
  }

  /** The bytes `n` slots of class `k` take. */
  function Rest(k: nat, n: nat): nat {
    if n == 0 then 0 else Rest(k, n - 1) + Bucket(k)
  }

  lemma {:induction false} WholePage(k: nat)
    ensures Rest(k, PerPage(k)) == PAGE
  {
    RestMeasure(k, PerPage(k));
  }

  lemma {:induction false} RestMeasure(k: nat, n: nat)
    ensures match k
            case 0 => Rest(k, n) == 64 * n
            case 1 => Rest(k, n) == 128 * n
            case 2 => Rest(k, n) == 256 * n
            case 3 => Rest(k, n) == 512 * n
            case 4 => Rest(k, n) == 1024 * n
            case _ => Rest(k, n) == 2048 * n
  {
    if n > 0 { RestMeasure(k, n - 1); }
  }
}
