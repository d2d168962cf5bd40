/**
 The heap behind the linker: a page of bin records, each with a 256-bit map of
 one 4096-byte page, extended by newest pages and by whole mappings.  A block of n
 bytes takes n/16+1 cells; the byte before it holds that count.

 View is the state as a value.  Sound says what every run keeps; the class at
 the end performs the steps in place.
 */
module AllocatorSpec {
  import opened Bitmap
  import opened Machine

  const PAGE: nat := 0x1000
  const CELL: nat := 0x10
  const SLOTS: nat := 85            // 48-byte bin records in one metadata page
  const LARGE: nat := PAGE - CELL   // requests from here on get a mapping of their own

  datatype Pointer = Pointer(region: nat, offset: nat)

  datatype Block =
    | Cells(slot: nat, cell: nat, size: nat)
    | Mapping(region: nat, size: nat)
  {
    function Quantity(): nat { size / CELL + 1 }
  }

  datatype View = View(
    bits: seq<Byte>,           // SLOTS maps of MAP_BYTES bytes
    page: seq<nat>,            // the region each slot manages
    used: nat,                 // slots in use
    memory: seq<seq<uint8>>,   // the regions handed out by the operating system
    blocks: seq<Block>)        // every block ever returned, oldest first

  ghost predicate Shaped(v: View) {
    |v.bits| == SLOTS * MAP_BYTES && |v.page| == SLOTS && v.used <= SLOTS
  }

  function SlotMap(bits: seq<Byte>, k: nat): (m: seq<Byte>)
    requires |bits| == SLOTS * MAP_BYTES && k < SLOTS
    ensures |m| == MAP_BYTES
  {
    bits[k * MAP_BYTES..k * MAP_BYTES + MAP_BYTES]
  }

  ghost predicate Busy(bits: seq<Byte>, slot: nat, cell: nat)
    requires |bits| == SLOTS * MAP_BYTES
  {
    slot < SLOTS && cell < CELLS && Taken(SlotMap(bits, slot), cell)
  }

  /** A slot in use manages its own region: a page with cell 0 reserved, or a mapping marked full. */
  ghost predicate SlotOk(v: View, k: nat)
    requires Shaped(v)
  {
    k < v.used ==>
      && v.page[k] < |v.memory|
      && Busy(v.bits, k, 0)
      && (|v.memory[v.page[k]]| == PAGE || forall c :: 0 <= c < CELLS ==> Busy(v.bits, k, c))
  }

  ghost predicate SlotsOk(v: View)
    requires Shaped(v)
  {
    && (forall k: nat :: SlotOk(v, k))
    && (forall i, j :: 0 <= i < j < v.used ==> v.page[i] != v.page[j])
    && (forall k :: v.used <= k < SLOTS ==> SlotMap(v.bits, k) == seq(MAP_BYTES, _ => EMPTY))
  }

  /** The pointer returned for a block. */
  function Start(v: View, b: Block): Pointer
  {
    match b
    case Cells(slot, cell, _) => Pointer(if slot < |v.page| then v.page[slot] else 0, CELL * cell)
    case Mapping(region, _) => Pointer(region, 0)
  }

  ghost predicate InUser(v: View, b: Block, r: nat, o: nat)
  {
    Start(v, b).region == r && Start(v, b).offset <= o < Start(v, b).offset + b.size
  }

  ghost predicate IsHeader(v: View, b: Block, r: nat, o: nat)
    requires Shaped(v)
  {
    b.Cells? && b.slot < SLOTS && v.page[b.slot] == r && o == CELL * b.cell - 1
  }

  ghost predicate BlockOk(v: View, b: Block)
    requires Shaped(v)
  {
    match b
    case Cells(slot, cell, size) =>
      && size < LARGE && slot < v.used && v.page[slot] < |v.memory| && |v.memory[v.page[slot]]| == PAGE
      && 1 <= cell && cell + b.Quantity() <= CELLS
      && (forall c :: cell <= c < cell + b.Quantity() ==> Busy(v.bits, slot, c))
      && v.memory[v.page[slot]][CELL * cell - 1] as nat == b.Quantity()
    case Mapping(region, size) =>
      && region < |v.memory| && |v.memory[region]| == size
  }

  ghost predicate Apart(b: Block, c: Block) {
    match (b, c)
    case (Cells(s, x, _), Cells(t, y, _)) => s != t || x + b.Quantity() <= y || y + c.Quantity() <= x
    case (Mapping(r, _), Mapping(s, _)) => r != s
    case _ => true
  }

  ghost predicate Owned(v: View, r: nat, o: nat)
    requires Shaped(v)
  {
    exists i :: 0 <= i < |v.blocks| && BlockOk(v, v.blocks[i])
                && (InUser(v, v.blocks[i], r, o) || IsHeader(v, v.blocks[i], r, o))
  }

  ghost predicate BlocksOk(v: View)
    requires Shaped(v)
  {
    && (forall i :: 0 <= i < |v.blocks| ==> BlockOk(v, v.blocks[i]))
    && (forall i, j :: 0 <= i < j < |v.blocks| ==> Apart(v.blocks[i], v.blocks[j]))
    && (forall i, k :: 0 <= i < |v.blocks| && 0 <= k < v.used && v.blocks[i].Mapping? && v.page[k] == v.blocks[i].region
          ==> forall c :: 0 <= c < CELLS ==> Busy(v.bits, k, c))
    && (forall i, j :: 0 <= i < |v.blocks| && 0 <= j < |v.blocks| && v.blocks[i].Cells? && v.blocks[j].Mapping?
          ==> v.page[v.blocks[i].slot] != v.blocks[j].region)
  }

  /** Whatever lies outside the blocks and their headers is still as the operating system delivered it. */
  ghost predicate Untouched(v: View)
    requires Shaped(v)
  {
    forall r: nat, o: nat {:trigger Owned(v, r, o)} ::
      r < |v.memory| && o < |v.memory[r]| ==> v.memory[r][o] == 0 || Owned(v, r, o)
  }

  ghost predicate Sound(v: View) {
    Shaped(v) && SlotsOk(v) && BlocksOk(v) && Untouched(v)
  }

  // ---------- what soundness says to a caller ----------

  /**
   In a sound state every user range lies inside its region, no two of them
   meet, and none of them covers the header byte of any block.
   */
  ghost predicate Safe(v: View)
    requires Shaped(v)
  {
    && (forall i :: 0 <= i < |v.blocks| ==>
          var b := v.blocks[i];
          && Start(v, b).region < |v.memory|
          && Start(v, b).offset + b.size <= |v.memory[Start(v, b).region]|)
    && (forall i, j, r: nat, o: nat ::
          0 <= i < |v.blocks| && 0 <= j < |v.blocks| && InUser(v, v.blocks[i], r, o)
          ==> (i != j ==> !InUser(v, v.blocks[j], r, o)) && !IsHeader(v, v.blocks[j], r, o))
  }

  /** Two ranges of cells that are apart share no user byte, and neither covers the other's header. */
  lemma {:induction false} CellsApart(v: View, b: Block, c: Block, r: nat, o: nat)
    requires Shaped(v) && SlotsOk(v) && BlockOk(v, b) && BlockOk(v, c)
    requires b.Cells? && c.Cells? && Apart(b, c)
    requires InUser(v, b, r, o)
    ensures !InUser(v, c, r, o) && !IsHeader(v, c, r, o)
  {
    if v.page[c.slot] == r {
      assert b.slot == c.slot;
    }
  }

  lemma {:induction false} ApartSymmetric(b: Block, c: Block)
    requires Apart(b, c)
    ensures Apart(c, b)
  {
  }

  lemma {:induction false} SoundIsSafe(v: View)
    requires Sound(v)
    ensures Safe(v)
  {
    forall i, j, r: nat, o: nat | 0 <= i < |v.blocks| && 0 <= j < |v.blocks| && InUser(v, v.blocks[i], r, o)
      ensures i != j ==> !InUser(v, v.blocks[j], r, o)
      ensures !IsHeader(v, v.blocks[j], r, o)
    {
      var b, c := v.blocks[i], v.blocks[j];
      assert BlockOk(v, b) && BlockOk(v, c);
      if i != j {
        if i < j { assert Apart(b, c); } else { assert Apart(c, b); ApartSymmetric(c, b); }
        if b.Cells? && c.Cells? {
          CellsApart(v, b, c, r, o);
        }
      }
    }
  }

  // ---------- steps ----------

  function SetByte(memory: seq<seq<uint8>>, r: nat, o: nat, x: uint8): (m: seq<seq<uint8>>)
    requires r < |memory| && o < |memory[r]|
    ensures |m| == |memory| && forall k :: 0 <= k < |m| ==> |m[k]| == |memory[k]|
    ensures forall k, p :: 0 <= k < |m| && 0 <= p < |m[k]| ==> m[k][p] == if k == r && p == o then x else memory[k][p]
  {
    memory[r := memory[r][o := x]]
  }

  /** Byte o behind pointer p is overwritten. */
  function Poked(v: View, p: Pointer, o: nat, x: uint8): View
    requires p.region < |v.memory| && p.offset + o < |v.memory[p.region]|
  {
    v.(memory := SetByte(v.memory, p.region, p.offset + o, x))
  }

  /** A client writing inside a block it owns disturbs nothing the allocator relies on. */
  lemma {:induction false} PokeSound(v: View, i: nat, p: Pointer, o: nat, x: uint8)
    requires Sound(v) && i < |v.blocks| && o < v.blocks[i].size && p == Start(v, v.blocks[i])
    ensures p.region < |v.memory| && p.offset + o < |v.memory[p.region]|
    ensures Sound(Poked(v, p, o, x))
  {
    SoundIsSafe(v);
    var w := Poked(v, p, o, x);
    PokeKeepsBlocks(v, i, p, o, x);
    forall k: nat ensures SlotOk(w, k) { assert SlotOk(v, k); }
    forall r: nat, q: nat | r < |w.memory| && q < |w.memory[r]|
      ensures w.memory[r][q] == 0 || Owned(w, r, q)
    {
      if r == p.region && q == p.offset + o {
        assert BlockOk(w, w.blocks[i]) && InUser(w, w.blocks[i], r, q);
      } else if v.memory[r][q] != 0 {
        OwnedStays(v, w, r, q);
      }
    }
  }

  lemma {:induction false} PokeKeepsBlocks(v: View, i: nat, p: Pointer, o: nat, x: uint8)
    requires Sound(v) && Safe(v) && i < |v.blocks| && o < v.blocks[i].size && p == Start(v, v.blocks[i])
    ensures BlocksOk(Poked(v, p, o, x))
  {
    var w := Poked(v, p, o, x);
    assert InUser(v, v.blocks[i], p.region, p.offset + o);
    forall j | 0 <= j < |w.blocks| ensures BlockOk(w, w.blocks[j]) {
      var b := v.blocks[j];
      assert BlockOk(v, b);
      if b.Cells? {
        assert IsHeader(v, b, v.page[b.slot], CELL * b.cell - 1);
      }
    }
  }

  /** Ownership survives any step that keeps pages, bits and blocks. */
  lemma {:induction false} OwnedStays(v: View, w: View, r: nat, o: nat)
    requires Shaped(v) && Shaped(w) && Owned(v, r, o)
    requires |v.blocks| <= |w.blocks| && w.blocks[..|v.blocks|] == v.blocks
    requires forall i :: 0 <= i < |v.blocks| ==> BlockOk(w, v.blocks[i])
    requires forall k :: 0 <= k < v.used ==> w.page[k] == v.page[k]
    ensures Owned(w, r, o)
  {
    var i :| 0 <= i < |v.blocks| && BlockOk(v, v.blocks[i])
             && (InUser(v, v.blocks[i], r, o) || IsHeader(v, v.blocks[i], r, o));
    assert w.blocks[i] == v.blocks[i];
    assert InUser(w, w.blocks[i], r, o) || IsHeader(w, w.blocks[i], r, o);
  }

  /** The bin records with the map of slot k replaced; every other slot keeps its cells. */
  function WithMap(bits: seq<Byte>, k: nat, m: seq<Byte>): (r: seq<Byte>)
    requires |bits| == SLOTS * MAP_BYTES && k < SLOTS && |m| == MAP_BYTES
    ensures |r| == |bits| && SlotMap(r, k) == m
    ensures forall j :: 0 <= j < SLOTS && j != k ==> SlotMap(r, j) == SlotMap(bits, j)
    ensures forall j: nat, c: nat {:trigger Busy(r, j, c)} :: j != k ==> Busy(r, j, c) == Busy(bits, j, c)
    ensures forall c: nat {:trigger Busy(r, k, c)} :: c < CELLS ==> Busy(r, k, c) == Taken(m, c)
  {
    bits[..k * MAP_BYTES] + m + bits[k * MAP_BYTES + MAP_BYTES..]
  }

  function FreshMap(): (m: seq<Byte>)
    ensures |m| == MAP_BYTES
  {
    [ONE] + seq(MAP_BYTES - 1, _ => EMPTY)
  }

  function FullMap(): (m: seq<Byte>)
    ensures |m| == MAP_BYTES
  {
    seq(MAP_BYTES, _ => FULL)
  }

  /** A new slot for region |memory|, which is n zero bytes. */
  function Grown(v: View, m: seq<Byte>, n: nat): View
    requires Shaped(v) && v.used < SLOTS && |m| == MAP_BYTES
  {
    v.(bits := WithMap(v.bits, v.used, m), page := v.page[v.used := |v.memory|], used := v.used + 1,
       memory := v.memory + [Zeros(n)])
  }

  /** A page with only cell 0 taken. */
  function WithPage(v: View): View
    requires Shaped(v) && v.used < SLOTS
  {
    Grown(v, FreshMap(), PAGE)
  }

  /** A mapping of its own for one large block; its map is marked full. */
  function WithMapping(v: View, size: nat): View
    requires Shaped(v) && v.used < SLOTS
  {
    Grown(v, FullMap(), size).(blocks := v.blocks + [Mapping(|v.memory|, size)])
  }

  lemma {:induction false} GrownKeeps(v: View, m: seq<Byte>, n: nat)
    requires Sound(v) && v.used < SLOTS && |m| == MAP_BYTES && Taken(m, 0)
    requires n == PAGE || forall c :: 0 <= c < CELLS ==> Taken(m, c)
    ensures var w := Grown(v, m, n); Shaped(w) && SlotsOk(w) && BlocksOk(w) && Untouched(w)
  {
    var w := Grown(v, m, n);
    forall k: nat ensures SlotOk(w, k) {
      assert SlotOk(v, k);
      if k < v.used { assert forall c :: 0 <= c < CELLS ==> Busy(w.bits, k, c) == Busy(v.bits, k, c); }
    }
    forall k: nat | k < v.used ensures v.page[k] < |v.memory| { assert SlotOk(v, k); }
    forall i | 0 <= i < |v.blocks| ensures BlockOk(w, w.blocks[i]) { GrownKeepsBlock(v, m, n, v.blocks[i]); }
    forall r: nat, o: nat | r < |w.memory| && o < |w.memory[r]|
      ensures w.memory[r][o] == 0 || Owned(w, r, o)
    {
      if r < |v.memory| && v.memory[r][o] != 0 {
        OwnedStays(v, w, r, o);
      }
    }
  }

  lemma {:induction false} GrownKeepsBlock(v: View, m: seq<Byte>, n: nat, b: Block)
    requires Shaped(v) && v.used < SLOTS && |m| == MAP_BYTES && BlockOk(v, b)
    ensures BlockOk(Grown(v, m, n), b)
  {
    var w := Grown(v, m, n);
    if b.Cells? {
      forall c | b.cell <= c < b.cell + b.Quantity() ensures Busy(w.bits, b.slot, c) {
        assert Busy(v.bits, b.slot, c);
      }
    }
  }

  lemma {:induction false} PageSound(v: View)
    requires Sound(v) && v.used < SLOTS
    ensures Sound(WithPage(v))
    ensures forall c :: 1 <= c < CELLS ==> !Busy(WithPage(v).bits, v.used, c)
  {
    assert FreshMap()[0][0];
    GrownKeeps(v, FreshMap(), PAGE);
    var w := WithPage(v);
    assert SlotMap(w.bits, v.used) == FreshMap();
  }

  lemma {:induction false} MappingSound(v: View, size: nat)
    requires Sound(v) && v.used < SLOTS
    ensures Sound(WithMapping(v, size))
  {
    GrownKeeps(v, FullMap(), size);
    var u, w := Grown(v, FullMap(), size), WithMapping(v, size);
    forall k: nat ensures SlotOk(w, k) { assert SlotOk(u, k); }
    MappingFits(v, size);
    forall r: nat, o: nat | r < |w.memory| && o < |w.memory[r]|
      ensures w.memory[r][o] == 0 || Owned(w, r, o)
    {
      if u.memory[r][o] != 0 { OwnedStays(u, w, r, o); }
    }
  }

  lemma {:induction false} MappingFits(v: View, size: nat)
    requires Sound(v) && v.used < SLOTS && BlocksOk(Grown(v, FullMap(), size))
    ensures BlocksOk(WithMapping(v, size))
  {
    var u, w := Grown(v, FullMap(), size), WithMapping(v, size);
    forall i | 0 <= i < |w.blocks| ensures BlockOk(w, w.blocks[i]) {
      assert i < |v.blocks| ==> BlockOk(u, u.blocks[i]);
    }
    MappingApart(v, size);
    MappingsFull(v, size);
  }

  /** The slot behind a mapping is full, also the one just added. */
  lemma {:induction false} MappingsFull(v: View, size: nat)
    requires Sound(v) && v.used < SLOTS && BlocksOk(Grown(v, FullMap(), size))
    ensures var w := WithMapping(v, size);
            forall i, k :: 0 <= i < |w.blocks| && 0 <= k < w.used && w.blocks[i].Mapping?
                && w.page[k] == w.blocks[i].region
              ==> forall c :: 0 <= c < CELLS ==> Busy(w.bits, k, c)
  {
    var u, w := Grown(v, FullMap(), size), WithMapping(v, size);
    forall i, k | 0 <= i < |w.blocks| && 0 <= k < w.used && w.blocks[i].Mapping? && w.page[k] == w.blocks[i].region
      ensures forall c :: 0 <= c < CELLS ==> Busy(w.bits, k, c)
    {
      if i < |v.blocks| { assert u.blocks[i] == w.blocks[i]; }
      assert k < v.used ==> SlotOk(v, k);
    }
  }

  lemma {:induction false} MappingApart(v: View, size: nat)
    requires Sound(v) && v.used < SLOTS
    ensures forall i :: 0 <= i < |v.blocks| ==> Apart(v.blocks[i], Mapping(|v.memory|, size))
    ensures forall i :: 0 <= i < |v.blocks| && v.blocks[i].Cells? ==>
              v.blocks[i].slot < v.used && v.page[v.blocks[i].slot] < |v.memory|
  {
    forall i | 0 <= i < |v.blocks|
      ensures Apart(v.blocks[i], Mapping(|v.memory|, size))
      ensures v.blocks[i].Cells? ==> v.blocks[i].slot < v.used && v.page[v.blocks[i].slot] < |v.memory|
    {
      assert BlockOk(v, v.blocks[i]);
    }
  }

  /** A block of the given size at a free run of a page. */
  function WithCells(v: View, k: nat, a: nat, size: nat, m: seq<Byte>): View
    requires Shaped(v) && k < v.used && 1 <= a < CELLS && size < LARGE && |m| == MAP_BYTES
    requires v.page[k] < |v.memory| && |v.memory[v.page[k]]| == PAGE
  {
    v.(bits := WithMap(v.bits, k, m),
       memory := SetByte(v.memory, v.page[k], CELL * a - 1, (size / CELL + 1) as uint8),
       blocks := v.blocks + [Cells(k, a, size)])
  }

  ghost predicate CanCarve(v: View, k: nat, a: nat, size: nat, m: seq<Byte>) {
    && Shaped(v) && k < v.used && 1 <= a < CELLS && size < LARGE && |m| == MAP_BYTES
    && FreeRun(SlotMap(v.bits, k), a, size / CELL + 1)
    && Marked(SlotMap(v.bits, k), m, a, a + (size / CELL + 1))
  }

  /** A free cell means the slot manages a page, and no large block lives there. */
  lemma {:induction false} CarvedSlotIsPage(v: View, k: nat, a: nat, size: nat, m: seq<Byte>)
    requires Sound(v) && CanCarve(v, k, a, size, m)
    ensures v.page[k] < |v.memory| && |v.memory[v.page[k]]| == PAGE
    ensures forall i :: 0 <= i < |v.blocks| && v.blocks[i].Mapping? ==> v.blocks[i].region != v.page[k]
  {
    assert SlotOk(v, k);
    assert !Busy(v.bits, k, a);
  }

  lemma {:induction false} CellsSound(v: View, k: nat, a: nat, size: nat, m: seq<Byte>)
    requires Sound(v) && CanCarve(v, k, a, size, m) && v.page[k] < |v.memory| && |v.memory[v.page[k]]| == PAGE
    ensures Sound(WithCells(v, k, a, size, m))
  {
    CarvedSlotIsPage(v, k, a, size, m);
    var w := WithCells(v, k, a, size, m);
    BitsOnlyGrow(v, k, a, size, m);
    forall j: nat ensures SlotOk(w, j) { assert SlotOk(v, j); }
    forall i | 0 <= i < |v.blocks| ensures BlockOk(w, v.blocks[i]) && Apart(v.blocks[i], Cells(k, a, size)) {
      OldBlockStays(v, k, a, size, m, i);
    }
    CellsFit(v, k, a, size, m);
    forall r: nat, o: nat | r < |w.memory| && o < |w.memory[r]|
      ensures w.memory[r][o] == 0 || Owned(w, r, o)
    {
      if r == v.page[k] && o == CELL * a - 1 {
        var i := |v.blocks|;
        assert BlockOk(w, w.blocks[i]) && IsHeader(w, w.blocks[i], r, o);
      } else if v.memory[r][o] != 0 {
        OwnedStays(v, w, r, o);
      }
    }
  }

  lemma {:induction false} BitsOnlyGrow(v: View, k: nat, a: nat, size: nat, m: seq<Byte>)
    requires Sound(v) && CanCarve(v, k, a, size, m) && v.page[k] < |v.memory| && |v.memory[v.page[k]]| == PAGE
    ensures var w := WithCells(v, k, a, size, m);
            && (forall j: nat, c: nat :: Busy(v.bits, j, c) ==> Busy(w.bits, j, c))
            && (forall c: nat :: a <= c < a + (size / CELL + 1) ==> Busy(w.bits, k, c) && !Busy(v.bits, k, c))
  {
  }

  /** A block already there keeps its cells and its header, and is apart from the new one. */
  lemma {:induction false} OldBlockStays(v: View, k: nat, a: nat, size: nat, m: seq<Byte>, i: nat)
    requires Sound(v) && CanCarve(v, k, a, size, m) && v.page[k] < |v.memory| && |v.memory[v.page[k]]| == PAGE
    requires i < |v.blocks|
    ensures BlockOk(WithCells(v, k, a, size, m), v.blocks[i]) && Apart(v.blocks[i], Cells(k, a, size))
  {
    BitsOnlyGrow(v, k, a, size, m);
    var b := v.blocks[i];
    assert BlockOk(v, b);
    if b.Cells? {
      assert Busy(v.bits, b.slot, b.cell);
      if b.slot == k {
        var q := size / CELL + 1;
        assert !(a <= b.cell < a + q);
        assert !Busy(v.bits, b.slot, a);
        forall c | b.cell <= c < b.cell + b.Quantity() ensures Busy(v.bits, b.slot, c) && c != a {
          assert Busy(v.bits, b.slot, c);
        }
      }
    }
  }

  lemma {:induction false} CellsFit(v: View, k: nat, a: nat, size: nat, m: seq<Byte>)
    requires Sound(v) && CanCarve(v, k, a, size, m) && v.page[k] < |v.memory| && |v.memory[v.page[k]]| == PAGE
    requires forall i :: 0 <= i < |v.blocks| ==>
               BlockOk(WithCells(v, k, a, size, m), v.blocks[i]) && Apart(v.blocks[i], Cells(k, a, size))
    ensures BlocksOk(WithCells(v, k, a, size, m))
  {
    CarvedSlotIsPage(v, k, a, size, m);
    BitsOnlyGrow(v, k, a, size, m);
    var w := WithCells(v, k, a, size, m);
    assert BlockOk(w, Cells(k, a, size));
    forall i, j | 0 <= i < |w.blocks| && 0 <= j < w.used && w.blocks[i].Mapping? && w.page[j] == w.blocks[i].region
      ensures forall c :: 0 <= c < CELLS ==> Busy(w.bits, j, c)
    {
      assert w.blocks[i] == v.blocks[i];
    }
  }

  /** A fresh page has room for every request that is not large, at cell 1. */
  lemma {:induction false} FreshPageFits(v: View, q: nat)
    requires Sound(v) && v.used < SLOTS && 1 <= q <= 255
    ensures FreeRun(SlotMap(WithPage(v).bits, v.used), 1, q)
  {
    PageSound(v);
    assert forall c :: 1 <= c < CELLS ==> !Busy(WithPage(v).bits, v.used, c);
  }

  /** What a block holds when it is handed out: nothing but zeros. */
  ghost predicate Blank(v: View, b: Block)
  {
    forall r: nat, o: nat :: r < |v.memory| && o < |v.memory[r]| && InUser(v, b, r, o) ==> v.memory[r][o] == 0
  }

  lemma {:induction false} CellsBlank(v: View, k: nat, a: nat, size: nat, m: seq<Byte>)
    requires Sound(v) && CanCarve(v, k, a, size, m) && v.page[k] < |v.memory| && |v.memory[v.page[k]]| == PAGE
    ensures Blank(WithCells(v, k, a, size, m), Cells(k, a, size))
  {
    var w, newest := WithCells(v, k, a, size, m), Cells(k, a, size);
    CellsSound(v, k, a, size, m);
    SoundIsSafe(w);
    assert w.blocks[|v.blocks|] == newest;
    forall r: nat, o: nat | r < |w.memory| && o < |w.memory[r]| && InUser(w, newest, r, o)
      ensures w.memory[r][o] == 0
    {
      UserByteWasFree(v, w, r, o);
      assert !IsHeader(w, newest, r, o);
      assert v.memory[r][o] == 0;
    }
  }

  /** A byte of the newest block belonged to no earlier block. */
  lemma {:induction false} UserByteWasFree(v: View, w: View, r: nat, o: nat)
    requires Shaped(v) && Shaped(w) && Safe(w) && w.page == v.page
    requires |w.blocks| == |v.blocks| + 1 && w.blocks[..|v.blocks|] == v.blocks
    requires InUser(w, w.blocks[|v.blocks|], r, o)
    ensures !Owned(v, r, o) && !IsHeader(w, w.blocks[|v.blocks|], r, o)
  {
    forall i | 0 <= i < |v.blocks| && BlockOk(v, v.blocks[i])
      ensures !InUser(v, v.blocks[i], r, o) && !IsHeader(v, v.blocks[i], r, o)
    {
      assert w.blocks[i] == v.blocks[i];
      assert !InUser(w, w.blocks[i], r, o) && !IsHeader(w, w.blocks[i], r, o);
    }
  }

  lemma {:induction false} MappingBlank(v: View, size: nat)
    requires Sound(v) && v.used < SLOTS
    ensures Blank(WithMapping(v, size), Mapping(|v.memory|, size))
  {
  }

  /** Earlier blocks stay where they are and keep their contents. */
  ghost predicate Preserves(v: View, w: View)
    requires Shaped(v) && Shaped(w)
  {
    && |v.blocks| <= |w.blocks| && w.blocks[..|v.blocks|] == v.blocks
    && (forall i :: 0 <= i < |v.blocks| ==> Start(w, v.blocks[i]) == Start(v, v.blocks[i]))
    && |v.memory| <= |w.memory| && (forall r :: 0 <= r < |v.memory| ==> |w.memory[r]| == |v.memory[r]|)
    && (forall i, r: nat, o: nat ::
          0 <= i < |v.blocks| && InUser(v, v.blocks[i], r, o) && r < |v.memory| && o < |v.memory[r]|
          ==> w.memory[r][o] == v.memory[r][o])
  }

  lemma {:induction false} GrownPreserves(v: View, m: seq<Byte>, n: nat)
    requires Sound(v) && v.used < SLOTS && |m| == MAP_BYTES
    ensures Preserves(v, Grown(v, m, n))
  {
    var w := Grown(v, m, n);
    forall i | 0 <= i < |v.blocks| ensures Start(w, v.blocks[i]) == Start(v, v.blocks[i]) {
      assert BlockOk(v, v.blocks[i]);
    }
  }

  lemma {:induction false} CellsPreserve(v: View, k: nat, a: nat, size: nat, m: seq<Byte>)
    requires Sound(v) && CanCarve(v, k, a, size, m) && v.page[k] < |v.memory| && |v.memory[v.page[k]]| == PAGE
    ensures Preserves(v, WithCells(v, k, a, size, m))
  {
    var w := WithCells(v, k, a, size, m);
    CellsSound(v, k, a, size, m);
    SoundIsSafe(w);
    assert w.blocks[|v.blocks|] == Cells(k, a, size);
    assert IsHeader(w, w.blocks[|v.blocks|], v.page[k], CELL * a - 1);
    forall i, r: nat, o: nat | 0 <= i < |v.blocks| && InUser(v, v.blocks[i], r, o) && r < |v.memory|
        && o < |v.memory[r]|
      ensures w.memory[r][o] == v.memory[r][o]
    {
      assert w.blocks[i] == v.blocks[i] && InUser(w, w.blocks[i], r, o);
    }
  }

  /** The block was carved from slot k at the least free run. */
  ghost predicate CarvedFrom(v: View, w: View, k: nat, size: nat)
    requires Shaped(v) && k < SLOTS && size < LARGE
  {
    exists a: nat, m: seq<Byte> ::
      && CanCarve(v, k, a, size, m) && LeastRun(SlotMap(v.bits, k), a, size / CELL + 1)
      && v.page[k] < |v.memory| && |v.memory[v.page[k]]| == PAGE && w == WithCells(v, k, a, size, m)
  }

  ghost predicate NoRoom(v: View, k: nat, size: nat)
    requires Shaped(v)
  {
    k < SLOTS && NoRun(SlotMap(v.bits, k), size / CELL + 1)
  }

  /** Where a request goes, given the slots searched in order. */
  ghost predicate Placed(v: View, searched: seq<nat>, w: View, size: nat)
    requires Shaped(v)
  {
    if size >= LARGE then
      v.used < SLOTS && w == WithMapping(v, size)
    else
      || (exists i :: 0 <= i < |searched| && searched[i] < SLOTS && CarvedFrom(v, w, searched[i], size)
                      && forall j :: 0 <= j < i ==> NoRoom(v, searched[j], size))
      || ((forall j :: 0 <= j < |searched| ==> NoRoom(v, searched[j], size))
          && v.used < SLOTS && CarvedFrom(WithPage(v), w, v.used, size))
  }

  /** A request can be served: one of the pages has room for it, or there is a bin record left. */
  ghost predicate CanServe(v: View, searched: seq<nat>, size: nat)
    requires Shaped(v)
  {
    || v.used < SLOTS
    || (size < LARGE && exists j :: 0 <= j < |searched| && !NoRoom(v, searched[j], size))
  }

  lemma {:induction false} PlacedInSlot(v: View, searched: seq<nat>, w: View, i: nat, size: nat)
    requires Shaped(v) && size < LARGE && i < |searched| && searched[i] < SLOTS
    requires forall j :: 0 <= j < i ==> NoRoom(v, searched[j], size)
    requires CarvedFrom(v, w, searched[i], size)
    ensures Placed(v, searched, w, size)
  {
  }

  lemma {:induction false} PlacedInNewPage(v: View, searched: seq<nat>, w: View, size: nat)
    requires Shaped(v) && v.used < SLOTS && size < LARGE && |searched| > 0
    requires forall j :: 0 <= j < |searched| ==> NoRoom(v, searched[j], size)
    requires CarvedFrom(WithPage(v), w, v.used, size)
    ensures Placed(v, searched, w, size)
  {
  }

  /** The newest block of w is the one requested, blank, and nothing else moved. */
  ghost predicate Granted(v: View, w: View, size: nat)
    requires Shaped(v) && Shaped(w)
  {
    && Preserves(v, w) && |w.blocks| == |v.blocks| + 1
    && w.blocks[|v.blocks|].size == size && Blank(w, w.blocks[|v.blocks|])
  }

  /** Wherever a request is placed, the state stays sound and the request is granted. */
  lemma {:induction false} PlacedIsGranted(v: View, searched: seq<nat>, w: View, size: nat)
    requires Sound(v) && Placed(v, searched, w, size)
    ensures Sound(w) && Granted(v, w, size)
  {
    if size >= LARGE {
      MappingSound(v, size);
      MappingBlank(v, size);
      GrownPreserves(v, FullMap(), size);
      var u := Grown(v, FullMap(), size);
      assert forall b :: Start(w, b) == Start(u, b);
    } else if exists i :: 0 <= i < |searched| && searched[i] < SLOTS && CarvedFrom(v, w, searched[i], size) {
      var i :| 0 <= i < |searched| && searched[i] < SLOTS && CarvedFrom(v, w, searched[i], size);
      CarvedIsGranted(v, w, searched[i], size);
    } else {
      PageSound(v);
      GrownPreserves(v, FreshMap(), PAGE);
      CarvedIsGranted(WithPage(v), w, v.used, size);
      PreservesComposes(v, WithPage(v), w);
    }
  }

  lemma {:induction false} CarvedIsGranted(v: View, w: View, k: nat, size: nat)
    requires Sound(v) && k < SLOTS && size < LARGE && CarvedFrom(v, w, k, size)
    ensures Sound(w) && Granted(v, w, size)
  {
    var a: nat, m: seq<Byte> :|
      && CanCarve(v, k, a, size, m) && LeastRun(SlotMap(v.bits, k), a, size / CELL + 1)
      && v.page[k] < |v.memory| && |v.memory[v.page[k]]| == PAGE && w == WithCells(v, k, a, size, m);
    CellsSound(v, k, a, size, m);
    CellsBlank(v, k, a, size, m);
    CellsPreserve(v, k, a, size, m);
  }

  lemma {:induction false} PreservesComposes(v: View, u: View, w: View)
    requires Shaped(v) && Shaped(u) && Shaped(w) && Preserves(v, u) && Preserves(u, w)
    requires u.blocks == v.blocks
    ensures Preserves(v, w)
  {
    forall i, r: nat, o: nat | 0 <= i < |v.blocks| && InUser(v, v.blocks[i], r, o) && r < |v.memory|
        && o < |v.memory[r]|
      ensures w.memory[r][o] == v.memory[r][o]
    {
      assert InUser(u, u.blocks[i], r, o);
    }
  }

  /**
   The chain of bin records: slot indices increase along it from slot 0 to the
   last slot in use, and the tail is one of them.  Slots of large mappings may
   have dropped out of it.
   */
  ghost predicate Linked(next: seq<nat>, chain: seq<nat>, at: nat, tail: nat, used: nat) {
    && |next| == SLOTS && 1 <= used <= SLOTS
    && |chain| > 0 && chain[0] == 0 && chain[|chain| - 1] == used - 1
    && (forall i :: 0 <= i < |chain| ==> chain[i] < used)
    && (forall i, j :: 0 <= i && j == i + 1 < |chain| ==> next[chain[i]] == chain[j] && chain[i] < chain[j])
    && next[used - 1] == 0
    && at < |chain| && chain[at] == tail
  }

  /** Linking a new slot behind the tail makes it the tail and drops what followed the old one. */
  lemma {:induction false} LinkBehindTail(next: seq<nat>, chain: seq<nat>, at: nat, tail: nat, used: nat)
    requires Linked(next, chain, at, tail, used) && used < SLOTS
    ensures Linked(next[used := 0][tail := used], chain[..at + 1] + [used], at + 1, used, used + 1)
  {
    ChainIncreases(next, chain, at, tail, used, at);
  }

  lemma {:induction false} ChainStep(next: seq<nat>, chain: seq<nat>, at: nat, tail: nat, used: nat, i: nat)
    requires Linked(next, chain, at, tail, used) && i < |chain|
    ensures if i + 1 < |chain| then next[chain[i]] == chain[i + 1] && next[chain[i]] != 0
            else next[chain[i]] == 0 && chain[i] == used - 1
  {
  }

  lemma {:induction false} ChainIncreases(next: seq<nat>, chain: seq<nat>, at: nat, tail: nat, used: nat, k: nat)
    requires Linked(next, chain, at, tail, used) && k < |chain|
    ensures forall j :: 0 <= j < k ==> chain[j] < chain[k]
  {
    if k > 0 {
      ChainIncreases(next, chain, at, tail, used, k - 1);
      assert chain[k - 1] < chain[k];
    }
  }

  /** A zero-filled metadata page is a sound empty heap; mem_init then gives slot 0 its page. */
  lemma {:induction false} InitialSound(bits: seq<Byte>, page: seq<nat>)
    requires |bits| == SLOTS * MAP_BYTES && |page| == SLOTS
    requires forall k :: 0 <= k < |bits| ==> bits[k] == EMPTY
    requires forall k :: 0 <= k < |page| ==> page[k] == 0
    ensures Sound(View(bits[0 := ONE], page, 1, [Zeros(PAGE)], []))
  {
    var v := View(bits, page, 0, [], []);
    assert forall k :: 0 <= k < SLOTS ==> SlotMap(v.bits, k) == seq(MAP_BYTES, _ => EMPTY);
    PageSound(v);
    assert bits[0 := ONE] == WithMap(bits, 0, FreshMap());
    assert page == page[0 := 0];
  }

  lemma {:induction false} LinkAtEnd(next: seq<nat>, chain: seq<nat>, at: nat, tail: nat, used: nat)
    requires Linked(next, chain, at, tail, used) && used < SLOTS
    ensures Linked(next[used - 1 := used][used := 0], chain + [used], at, tail, used + 1)
  {
    ChainIncreases(next, chain, at, tail, used, |chain| - 1);
  }

  // ---------- whole runs ----------

  datatype Action =
    | Allocate(size: nat, searched: seq<nat>)
    | Write(block: nat, p: Pointer, o: nat, x: uint8)

  /** One step of a run: a request, or a client writing inside a block it was given. */
  ghost predicate Step(v: View, act: Action, w: View) {
    && Shaped(v)
    && match act
       case Allocate(size, searched) => Placed(v, searched, w, size)
       case Write(i, p, o, x) =>
         && i < |v.blocks| && o < v.blocks[i].size && p == Start(v, v.blocks[i])
         && p.region < |v.memory| && p.offset + o < |v.memory[p.region]| && w == Poked(v, p, o, x)
  }

  /** The heap right after mem_init. */
  function AfterInit(): View {
    View(seq(SLOTS * MAP_BYTES, _ => EMPTY)[0 := ONE], seq(SLOTS, _ => 0), 1, [Zeros(PAGE)], [])
  }

  ghost predicate Run(states: seq<View>, acts: seq<Action>) {
    && |states| == |acts| + 1 && states[0] == AfterInit()
    && forall i :: 0 <= i < |acts| ==> Step(states[i], acts[i], states[i + 1])
  }

  /**
   In every run, every state is safe: blocks never meet, stay in bounds and clear
   of headers, each header still holds its count; every block handed out is
   blank, and handing it out moves or changes no earlier block.
   */
  lemma {:induction false} RunsAreSafe(states: seq<View>, acts: seq<Action>, n: nat)
    requires Run(states, acts) && n <= |acts|
    ensures Sound(states[n]) && Safe(states[n])
    ensures n > 0 && acts[n - 1].Allocate? ==>
              Sound(states[n - 1]) && Granted(states[n - 1], states[n], acts[n - 1].size)
  {
    if n == 0 {
      InitialSound(seq(SLOTS * MAP_BYTES, _ => EMPTY), seq(SLOTS, _ => 0));
    } else {
      RunsAreSafe(states, acts, n - 1);
      var v := states[n - 1];
      assert Step(v, acts[n - 1], states[n - 1 + 1]);
      match acts[n - 1] {
        case Allocate(size, searched) => PlacedIsGranted(v, searched, states[n], size);
        case Write(i, p, o, x) => PokeSound(v, i, p, o, x);
      }
    }
    SoundIsSafe(states[n]);
  }
}

/** The allocator itself: bin records and page contents updated in place. */
module Allocator {
  import opened Bitmap
  import opened Machine
  import opened AllocatorSpec

  class Heap {
    var bits: array<Byte>      // the bin words of every slot
    var next: array<nat>       // successor slot, 0 when there is none
    var page: array<nat>       // region managed by a slot
    var head: nat
    var tail: nat
    var memory: seq<seq<uint8>>
    ghost var view: View       // the state as a value, with every block returned so far
    ghost var chain: seq<nat>  // the slots reachable from head, in order
    ghost var at: nat          // where the tail stands in the chain

    /** The view is what the fields hold. */
    ghost predicate Synced()
      reads this, bits, next, page
    {
      next != page && view.bits == bits[..] && view.page == page[..] && view.memory == memory
    }

    ghost predicate Valid()
      reads this, bits, next, page
    {
      Synced() && Sound(view) && head == 0 && Linked(next[..], chain, at, tail, view.used)
    }

    /** mem_init: a metadata page whose first bin manages a first page. */
    constructor ()
      ensures Valid() && fresh(bits) && fresh(next) && fresh(page)
      ensures view.used == 1 && view.blocks == [] && |view.page| == 85 && view.memory == [Zeros(0x1000)]
    {
      bits := new Byte[SLOTS * MAP_BYTES](_ => EMPTY);
      next := new nat[SLOTS](_ => 0);
      page := new nat[SLOTS](_ => 0);
      head, tail := 0, 0;
      memory := [Zeros(PAGE)];
      chain, at := [0], 0;
      new;
      InitialSound(bits[..], page[..]);
      view := View(bits[..][0 := ONE], page[..], 1, [Zeros(PAGE)], []);
      bits[0] := ONE;
    }

    /** *(page + o) = x */
    method StoreByte(r: nat, o: nat, x: uint8)
      requires Synced() && r < |memory| && o < |memory[r]|
      modifies this`memory, this`view
      ensures Synced() && view == old(view).(memory := SetByte(old(view).memory, r, o, x))
    {
      view := view.(memory := SetByte(view.memory, r, o, x));
      memory := SetByte(memory, r, o, x);
    }

    /** set_bin on the map of slot k. */
    method MarkCells(k: nat, a: nat, q: nat) returns (ghost m: seq<Byte>)
      requires Synced() && Shaped(view) && k < SLOTS && 1 <= q && a + q <= CELLS
      modifies bits, this`view
      ensures Synced() && |m| == MAP_BYTES && Marked(SlotMap(old(view).bits, k), m, a, a + q)
      ensures view == old(view).(bits := WithMap(old(view).bits, k, m))
    {
      SetRun(bits, k * MAP_BYTES, a, q);
      m := bits[k * MAP_BYTES..k * MAP_BYTES + MAP_BYTES];
      assert bits[..] == WithMap(view.bits, k, m);
      view := view.(bits := WithMap(view.bits, k, m));
    }

    /**
     Fills in bin record c, the first unused one, for a new region of n bytes.
     Only the given number of 32-bit map words is written; the rest of the record
     is relied upon to be right already.
     */
    method AddSlot(c: nat, m: seq<Byte>, words: nat, n: nat)
      requires Synced() && Shaped(view) && view.used == c < SLOTS && |m| == MAP_BYTES && words <= 8
      requires m[4 * words..] == SlotMap(view.bits, c)[4 * words..]
      modifies bits, page, this`memory, this`view
      ensures Synced() && view == Grown(old(view), m, n)
    {
      page[c] := |memory|;
      memory := memory + [Zeros(n)];
      forall i | 0 <= i < 4 * words { bits[c * MAP_BYTES + i] := m[i]; }
      assert forall i :: 4 * words <= i < MAP_BYTES ==> m[i] == m[4 * words..][i - 4 * words];
      assert bits[..] == WithMap(view.bits, c, m);
      view := Grown(view, m, n);
    }

    /** Follows the chain from the head to its last bin. */
    method LastBin() returns (c: nat)
      requires Valid()
      ensures c == view.used - 1
    {
      c := head;
      ghost var i := 0;
      while next[c] != 0
        invariant i < |chain| && chain[i] == c
        decreases |chain| - i
      {
        ChainStep(next[..], chain, at, tail, view.used, i);
        c, i := next[c], i + 1;
      }
      ChainStep(next[..], chain, at, tail, view.used, i);
    }

    /** expand_heap: a mapping of its own, recorded behind the last bin as a full map. */
    method ExpandHeap(size: nat) returns (r: Pointer)
      requires Valid() && view.used < SLOTS
      modifies this, bits, next, page
      ensures bits == old(bits) && next == old(next) && page == old(page)
      ensures Valid() && view == WithMapping(old(view), size)
      ensures r == Start(view, view.blocks[|old(view).blocks|])
    {
      var pre := LastBin();
      var c := pre + 1;
      MappingSound(view, size);
      LinkAtEnd(next[..], chain, at, tail, view.used);
      ghost var region := |memory|;
      r := Pointer(|memory|, 0);
      AddSlot(c, FullMap(), 8, size);
      next[pre] := c;
      next[c] := 0;
      view := view.(blocks := view.blocks + [Mapping(region, size)]);
      chain := chain + [c];
    }

    /** The block at cell a of slot k: mark its cells and leave the count in the byte before it. */
    method Carve(k: nat, a: nat, size: nat) returns (r: Pointer)
      requires Valid() && k < view.used && 1 <= a && size < LARGE
      requires LeastRun(SlotMap(view.bits, k), a, size / CELL + 1)
      modifies bits, this`memory, this`view
      ensures Valid() && CarvedFrom(old(view), view, k, size)
      ensures r == Start(view, view.blocks[|old(view).blocks|])
    {
      ghost var v := view;
      var q := size / CELL + 1;
      ghost var m := MarkCells(k, a, q);
      assert CanCarve(v, k, a, size, m);
      CarvedSlotIsPage(v, k, a, size, m);
      r := Pointer(page[k], CELL * a);
      StoreByte(page[k], CELL * a - 1, q as uint8);
      view := view.(blocks := view.blocks + [Cells(k, a, size)]);
      assert view == WithCells(v, k, a, size, m);
      CellsSound(v, k, a, size, m);
    }

    /** A page of its own for the bin record after the last one, which becomes the tail. */
    method NewPage(last: nat) returns (c: nat)
      requires Valid() && view.used < SLOTS && last == view.used - 1
      modifies this, bits, next, page
      ensures bits == old(bits) && next == old(next) && page == old(page)
      ensures Valid() && view == WithPage(old(view)) && c == tail == old(view).used && chain[at..] == [c]
    {
      c := last + 1;
      PageSound(view);
      LinkBehindTail(next[..], chain, at, tail, view.used);
      AddSlot(c, FreshMap(), 1, PAGE);
      next[c] := 0;
      next[tail] := c;
      tail, chain, at := c, chain[..at + 1] + [c], at + 1;
    }

    method FindInSlot(c: nat, q: nat) returns (a: nat)
      requires Valid() && c < view.used && 1 <= q <= 255
      ensures a != 0 ==> LeastRun(SlotMap(view.bits, c), a, q)
      ensures a == 0 ==> NoRun(SlotMap(view.bits, c), q)
    {
      assert SlotOk(view, c);
      a := FindConsecutive(bits, c * MAP_BYTES, q);
    }

    /** Walks the bins from the tail; c is the last one looked at, a its free run, 0 if no bin has one. */
    method Search(size: nat, ghost searched: seq<nat>) returns (c: nat, a: nat, ghost i: nat)
      requires Valid() && size < LARGE && searched == chain[at..]
      ensures i < |searched| && c == searched[i] && c < view.used
      ensures forall j :: 0 <= j < i ==> NoRoom(view, searched[j], size)
      ensures a != 0 ==> LeastRun(SlotMap(view.bits, c), a, size / CELL + 1)
      ensures a == 0 ==> NoRoom(view, c, size) && c == view.used - 1 && i == |searched| - 1
    {
      var q := size / CELL + 1;
      c, i := tail, 0;
      while true
        invariant i < |searched| && searched[i] == c
        invariant forall j :: 0 <= j < i ==> NoRoom(view, searched[j], size)
        decreases |searched| - i
      {
        a := FindInSlot(c, q);
        ChainStep(next[..], chain, at, tail, view.used, at + i);
        if a != 0 || next[c] == 0 {
          return;
        }
        c, i := next[c], i + 1;
      }
    }

    /** __malloc, while the page of bin records has room for a new one or none is needed. */
    method Malloc(size: nat) returns (r: Pointer)
      requires Valid() && CanServe(view, chain[at..], size)
      modifies this, bits, next, page
      ensures bits == old(bits) && next == old(next) && page == old(page)
      ensures Valid() && Placed(old(view), old(chain[at..]), view, size)
      ensures Granted(old(view), view, size)
      ensures r == Start(view, view.blocks[|old(view).blocks|])
    {
      ghost var v, searched := view, chain[at..];
      if size >= PAGE - CELL {
        r := ExpandHeap(size);
      } else {
        r := MallocCells(size);
      }
      PlacedIsGranted(v, searched, view, size);
    }

    method MallocCells(size: nat) returns (r: Pointer)
      requires Valid() && CanServe(view, chain[at..], size) && size < LARGE
      modifies this, bits, next, page
      ensures bits == old(bits) && next == old(next) && page == old(page)
      ensures Valid() && Placed(old(view), old(chain[at..]), view, size)
      ensures r == Start(view, view.blocks[|old(view).blocks|])
    {
      ghost var v, searched := view, chain[at..];
      var c, a, i := Search(size, searched);
      if a != 0 {
        r := Carve(c, a, size);
        PlacedInSlot(v, searched, view, i, size);
      } else {
        r := CarveNewPage(c, size);
        PlacedInNewPage(v, searched, view, size);
      }
    }

    method CarveNewPage(last: nat, size: nat) returns (r: Pointer)
      requires Valid() && view.used < SLOTS && last == view.used - 1 && size < LARGE
      modifies this, bits, next, page
      ensures bits == old(bits) && next == old(next) && page == old(page)
      ensures Valid() && CarvedFrom(WithPage(old(view)), view, old(view).used, size)
      ensures r == Start(view, view.blocks[|old(view).blocks|])
    {
      ghost var v := view;
      var c := NewPage(last);
      FreshPageFits(v, size / CELL + 1);
      var a := FindInSlot(c, size / CELL + 1);
      r := Carve(c, a, size);
    }
  }
}
