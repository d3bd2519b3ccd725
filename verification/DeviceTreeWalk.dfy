/** The device-tree walk as emitted: one register per variable, absolute addresses that wrap at 2^64. */
module DeviceTreeWalk {
  import opened Options
  import opened Bytes
  import opened DeviceTree

  const TWO_32: nat := 0x1_0000_0000

  function Add(a: nat, b: nat): nat
  {
    (a + b) % TWO_64
  }

  /** Shifting right and back left by two. */
  function ClearLow(a: nat): nat
  {
    a / 4 * 4
  }

  lemma AlignedAddress(base: nat, i: nat)
    requires base % 8 == 0 && base + i + 3 < TWO_64
    ensures ClearLow(Add(base + i, 3)) == base + AlignUp(i)
  {
    SmallSum(base + i, 3);
    EighthsApart(base / 8, i + 3);
  }

  lemma SmallSum(a: nat, b: nat)
    requires a + b < TWO_64
    ensures Add(a, b) == a + b
  {
  }

  lemma EighthsApart(k: nat, n: nat)
    ensures (8 * k + n) / 4 == 2 * k + n / 4
  {
  }

  /** The blob ends more than three bytes below the end of the address space, or is too short for a name. */
  predicate Roomy(base: nat, total: nat)
  {
    base + total + 3 < TWO_64 || (base + total < TWO_64 && total < HEADER_BYTES + 5)
  }

  class Walker {
    const base: nat
    const blob: Blob
    const image: Image
    var x2: nat
    var x3: nat
    var x4: nat
    var x5: nat
    var w6: nat
    var w7: nat
    var w8: nat
    var pl011: bool   // bit 0 of w9
    var memory: bool  // bit 1 of w9
    var reg: bool     // bit 2 of w9
    var x10: nat
    var x11: nat
    var x12: nat
    var w13: nat

    constructor (base: nat, blob: Blob, image: Image)
      ensures this.base == base && this.blob == blob && this.image == image
    {
      this.base, this.blob, this.image := base, blob, image;
    }

    /** Aligned and not null, with room for rounding. */
    predicate Placed()
    {
      base > 0 && base % 8 == 0 && Roomy(base, |blob|)
    }

    /** A word load; the precondition is that it stays inside the blob. */
    function Word(a: nat): (n: nat)
      requires base <= a && a + 4 <= base + |blob|
      ensures n < TWO_32
    {
      Be32(blob, a - base)
    }

    function ByteAt(a: nat): Byte
      requires base <= a < base + |blob|
    {
      blob[a - base]
    }

    /** What the registers say about the tree. */
    ghost function Tree(): Tree
      reads this
    {
      DeviceTree.Tree(if w6 == TWO_32 - 1 then -1 else w6, w7 == 2, w8 == 2, Node(pl011, memory, reg, x10, x11), x12,
                      w13 == 1)
    }

    /** The registers hold the layout, and the cursor is at the given offset. */
    ghost predicate At(l: Layout, at: nat)
      reads this
    {
      && Placed() && LayoutOk(blob, l) && HEADER_BYTES <= at <= l.structureEnd
      && x2 == base + at && x3 == base + l.structureEnd && x4 == base + l.strings && x5 == base + l.stringsEnd
      && (w6 <= 64 || w6 == TWO_32 - 1) && x10 < TWO_64 && x11 < TWO_64
    }

    /** The token at the offset was read and applied, or refused exactly where the specification refuses it. */
    ghost predicate Handled(l: Layout, at: nat, t: Tree, ok: bool)
      requires LayoutOk(blob, l)
      reads this
    {
      match Next(blob, l, at)
      case None => !ok
      case Some(read) =>
        match Apply(t, read.event, image)
        case None => !ok
        case Some(u) => ok && At(l, read.next) && Tree() == u
    }

    // ----- strings -----

    /** Moves past the next zero byte, refusing to read at or beyond the end. */
    method SkipString(from: nat, end: nat) returns (ok: bool, x: nat)
      requires Placed() && base <= from <= end <= base + |blob|
      ensures ok <==> FindZero(blob, from - base, end - base) < end - base
      ensures ok ==> x == base + FindZero(blob, from - base, end - base) + 1
    {
      x := from;
      while true
        invariant from <= x <= end
        invariant FindZero(blob, x - base, end - base) == FindZero(blob, from - base, end - base)
        decreases end - x
      {
        if x >= end {
          return false, x;
        }
        var byte := ByteAt(x);
        x := Add(x, 1);
        if byte == 0 {
          return true, x;
        }
      }
    }

    /** Compares a zero-terminated constant without reading beyond the end. */
    method StringEquals(pointer: nat, end: nat, value: seq<Byte>) returns (equal: bool)
      requires Placed() && base <= pointer <= end <= base + |blob| && |value| < 4096
      ensures equal <==> pointer + |value| <= end && blob[pointer - base..pointer - base + |value|] == value
    {
      var x15 := Add(pointer, |value|);
      if x15 < pointer || x15 > end {
        return false;
      }
      var i := 0;
      while i < |value|
        invariant 0 <= i <= |value|
        invariant forall j :: 0 <= j < i ==> blob[pointer - base + j] == value[j]
      {
        if ByteAt(pointer + i) != value[i] {
          return false;
        }
        i := i + 1;
      }
      equal := true;
    }

    // ----- tokens -----

    /** Counts the node and, for a child of the root, forgets the previous one. */
    method OpenNode(ghost name: seq<Byte>) returns (ok: bool)
      requires w6 <= 64 || w6 == TWO_32 - 1
      modifies this`w6, this`pl011, this`memory, this`reg, this`x10, this`x11
      ensures ok <==> Apply(old(Tree()), Begin(name), image).Some?
      ensures ok ==> Tree() == Apply(old(Tree()), Begin(name), image).value && w6 <= 64
      ensures (x10 == old(x10) && x11 == old(x11)) || (x10 == 0 && x11 == 0)
    {
      w6 := (w6 + 1) % TWO_32;
      if w6 == 1 {
        pl011, memory, reg, x10, x11 := false, false, false, 0, 0;
      }
      ok := w6 <= 64;
    }

    /** Opening a node: count it and skip the name. */
    method BeginNode(ghost l: Layout, ghost at: nat) returns (ok: bool)
      requires HEADER_BYTES <= at && At(l, at + 4) && Be32(blob, at) == 1
      modifies this
      ensures Handled(l, at, old(Tree()), ok)
    {
      NextBegin(blob, l, at);
      hide Next, AlignUp, ClearLow, Add, Be32;
      ghost var z := FindZero(blob, at + 4, l.structureEnd);
      EndInside(blob, l);
      if z < l.structureEnd { AlignedAddress(base, z + 1); }
      hide LayoutOk, Apply;
      ok := OpenNode(blob[at + 4..z]);
      if !ok {
        return;
      }
      var x;
      ok, x := SkipString(x2, x3);
      if !ok {
        return;
      }
      x := ClearLow(Add(x, 3));
      ok := x <= x3;
      if ok {
        MoveTo(x);
      }
    }

    /** Closing a child of the root: a console must be usable and unique, memory may hold the image. */
    method CommitNode() returns (ok: bool)
      requires x10 < TWO_64 && x11 < TWO_64
      modifies this`x12, this`w13
      ensures ok <==> Commit(old(Tree()), image).Some?
      ensures ok ==> Tree() == Commit(old(Tree()), image).value
    {
      if pl011 && reg {
        if x12 != 0 || x10 == 0 || x10 % PAGE != 0 || x10 > FOUR_GIB - 1 || x11 < PAGE || x10 / ONE_GIB % 512 == 1 {
          return false;
        }
        x12 := x10;
      }
      if memory && reg && image.start >= x10 {
        var x16 := Add(x10, x11);
        if x16 < x10 {
          return false;
        }
        if image.end <= x16 {
          w13 := 1;
        }
      }
      ok := true;
    }

    method EndNode(ghost l: Layout, ghost at: nat) returns (ok: bool)
      requires HEADER_BYTES <= at && At(l, at + 4) && Be32(blob, at) == 2
      modifies this
      ensures Handled(l, at, old(Tree()), ok)
    {
      hide Commit, LayoutOk;
      if w6 > 64 {
        return false;
      }
      if w6 == 1 {
        ok := CommitNode();
        if !ok {
          return;
        }
      }
      w6 := (w6 + TWO_32 - 1) % TWO_32;
      ok := true;
    }

    /** Looks for the console in a list of strings. */
    method CompatibleList(from: nat, end: nat) returns (r: Listed)
      requires Placed() && base <= from <= end <= base + |blob|
      ensures r == FindConsole(blob[from - base..end - base], 0)
    {
      hide FindConsole, FindZero, PL011;
      assert |PL011| < 4096 by { ConsoleLength(); }
      var x1 := from;
      while true
        invariant from <= x1 <= end && FindConsole(blob[from - base..end - base], x1 - from)
                  == FindConsole(blob[from - base..end - base], 0)
        decreases end - x1
      {
        ConsoleStep(blob, from - base, end - base, x1 - base);
        if x1 >= end {
          return Absent;
        }
        var equal := StringEquals(x1, end, PL011);
        if equal {
          return Present;
        }
        var found;
        found, x1 := SkipString(x1, end);
        if !found {
          return Broken;
        }
      }
    }

    /** Does the property's name equal the constant? */
    method NameIs(x0: nat, wanted: seq<Byte>, ghost name: seq<Byte>) returns (equal: bool)
      requires Placed() && base <= x0 < x5 && Terminated(blob, x0 - base, x5 - base, name) && NoZero(wanted)
               && |wanted| < 4000
      ensures equal <==> name == wanted
    {
      NameMatches(blob, x0 - base, x5 - base, wanted);
      equal := StringEquals(x0, x5, wanted + TERMINATOR);
    }

    /** The root's cell counts must both be two. */
    method CellCount(x16: nat, w14: nat) returns (ok: bool)
      requires Placed() && base <= x16 && x16 + w14 <= base + |blob|
      ensures ok <==> w14 == 4 && Be32(blob[x16 - base..x16 - base + w14], 0) == 2
    {
      if w14 != 4 {
        return false;
      }
      WordInSlice(blob, x16 - base, x16 - base + w14, 0);
      ok := Word(x16) == 2;
    }

    /** Two big-endian double words read as four words. */
    method ReadRegion(x16: nat, w14: nat)
      requires Placed() && base <= x16 && x16 + w14 <= base + |blob| && w14 >= 16
      modifies this`x10, this`x11
      ensures x10 == Be64(blob[x16 - base..x16 - base + w14], 0) && x11 == Be64(blob[x16 - base..x16 - base + w14], 8)
    {
      ghost var (a, b) := (x16 - base, x16 - base + w14);
      WordInSlice(blob, a, b, 0);
      WordInSlice(blob, a, b, 4);
      WordInSlice(blob, a, b, 8);
      WordInSlice(blob, a, b, 12);
      hide Be32;
      x10 := Word(x16) * TWO_32 + Word(x16 + 4);
      x11 := Word(x16 + 8) * TWO_32 + Word(x16 + 12);
    }

    method PropertyMeaning(x0: nat, x16: nat, x18: nat, w14: nat, ghost name: seq<Byte>, ghost value: seq<Byte>)
        returns (ok: bool)
      requires Placed() && base <= x0 < x5 && Terminated(blob, x0 - base, x5 - base, name)
      requires base <= x16 && x18 == x16 + w14 <= base + |blob| && x10 < TWO_64 && x11 < TWO_64
      requires value == blob[x16 - base..x18 - base]
      modifies this`w7, this`w8, this`pl011, this`memory, this`reg, this`x10, this`x11
      ensures ok <==> ApplyProperty(old(Tree()), name, value).Some?
      ensures ok ==> Tree() == ApplyProperty(old(Tree()), name, value).value && x10 < TWO_64 && x11 < TWO_64
    {
      NamesPlain();
      hide ADDRESS_CELLS, SIZE_CELLS, COMPATIBLE, DEVICE_TYPE, REG, PL011, FindConsole, Terminated, Be32, Be64;
      var equal := NameIs(x0, ADDRESS_CELLS, name);
      if equal {
        if w6 != 0 { return true; }
        ok := CellCount(x16, w14);
        if ok { w7 := 2; }
        return;
      }
      equal := NameIs(x0, SIZE_CELLS, name);
      if equal {
        if w6 != 0 { return true; }
        ok := CellCount(x16, w14);
        if ok { w8 := 2; }
        return;
      }
      equal := NameIs(x0, COMPATIBLE, name);
      if equal {
        if w6 != 1 { return true; }
        var listed := CompatibleList(x16, x18);
        if listed == Present { pl011 := true; }
        return listed != Broken;
      }
      ok := OtherProperty(x0, x16, x18, w14, name, value);
    }

    method OtherProperty(x0: nat, x16: nat, x18: nat, w14: nat, ghost name: seq<Byte>, ghost value: seq<Byte>)
        returns (ok: bool)
      requires Placed() && base <= x0 < x5 && Terminated(blob, x0 - base, x5 - base, name)
      requires base <= x16 && x18 == x16 + w14 <= base + |blob| && x10 < TWO_64 && x11 < TWO_64
      requires value == blob[x16 - base..x18 - base]
      requires name != ADDRESS_CELLS && name != SIZE_CELLS && name != COMPATIBLE
      modifies this`memory, this`reg, this`x10, this`x11
      ensures ok <==> ApplyProperty(old(Tree()), name, value).Some?
      ensures ok ==> Tree() == ApplyProperty(old(Tree()), name, value).value && x10 < TWO_64 && x11 < TWO_64
    {
      NamesPlain();
      MemoryLength();
      hide ADDRESS_CELLS, SIZE_CELLS, COMPATIBLE, DEVICE_TYPE, REG, PL011, MEMORY, FindConsole, Terminated, Be32, Be64;
      var equal := NameIs(x0, DEVICE_TYPE, name);
      if equal {
        if w6 != 1 || w14 != 7 { return true; }
        equal := StringEquals(x16, x18, MEMORY);
        if equal { memory := true; }
        return true;
      }
      equal := NameIs(x0, REG, name);
      if equal {
        if w6 != 1 { return true; }
        if w7 != 2 || w8 != 2 || w14 < 16 { return false; }
        ReadRegion(x16, w14);
        reg := true;
      }
      ok := true;
    }

    /** Where a property's value ends and the next token starts, if that is inside the structure block. */
    method LocateValue(ghost l: Layout, ghost at: nat) returns (ok: bool, x16: nat, x17: nat, x18: nat, w14: nat)
      requires HEADER_BYTES <= at && At(l, at + 4)
      ensures ok <==> Valued(blob, l, at)
      ensures ok ==>
                x16 == base + at + 12 && w14 == Be32(blob, at + 4) && x18 == x16 + w14
                && x17 == base + AlignUp(at + 12 + w14)
    {
      hide Be32, AlignUp, ClearLow;
      x16, x17, x18, w14 := Add(x2, 8), 0, 0, 0;
      if x16 < x2 || x16 > x3 {
        return false, x16, x17, x18, w14;
      }
      w14 := Word(x2);
      ValueEnd(base, at + 12, w14);
      x18 := Add(x16, w14);
      if x18 < x16 {
        return false, x16, x17, x18, w14;
      }
      x17 := Add(x18, 3);
      if x17 < x18 {
        return false, x16, x17, x18, w14;
      }
      x17 := ClearLow(x17);
      ok := x17 <= x3;
    }

    /** Where the property's name is, if it is a terminated string of the strings block. */
    method LocateName(ghost l: Layout, ghost at: nat) returns (ok: bool, x0: nat)
      requires HEADER_BYTES <= at && At(l, at + 4) && Valued(blob, l, at)
      ensures ok <==> Named(blob, l, at)
      ensures ok ==> x0 == base + l.strings + Be32(blob, at + 8)
    {
      hide Be32, FindZero, AlignUp;
      var w15 := Word(x2 + 4);
      x0 := Add(x4, w15);
      if x0 < x4 || x0 >= x5 {
        return false, x0;
      }
      var x1;
      ok, x1 := SkipString(x0, x5);
    }

    /** A property: bounds first, then the name, then what it means here. */
    method PropertyToken(ghost l: Layout, ghost at: nat) returns (ok: bool)
      requires HEADER_BYTES <= at && At(l, at + 4) && Be32(blob, at) == 3
      modifies this
      ensures Handled(l, at, old(Tree()), ok)
    {
      NextPropertyShape(blob, l, at);
      hide Next, Terminated, Named, Valued, Be32, ApplyProperty, AlignUp, LayoutOk;
      var x16, x17, x18, w14, x0;
      ok, x16, x17, x18, w14 := LocateValue(l, at);
      if !ok {
        return;
      }
      ok, x0 := LocateName(l, at);
      if !ok {
        return;
      }
      ok := FinishProperty(l, at, x0, x16, x17, x18, w14);
    }

    /** The meaning of a property whose value and name were found, and the step to the next token. */
    method FinishProperty(ghost l: Layout, ghost at: nat, x0: nat, x16: nat, x17: nat, x18: nat, w14: nat)
      returns (ok: bool)
      requires HEADER_BYTES <= at && At(l, at + 4) && Be32(blob, at) == 3 && Valued(blob, l, at) && Named(blob, l, at)
      requires x0 == base + l.strings + Be32(blob, at + 8) && x16 == base + at + 12 && w14 == Be32(blob, at + 4)
      requires x18 == x16 + w14 && x17 == base + AlignUp(at + 12 + w14)
      modifies this
      ensures Handled(l, at, old(Tree()), ok)
    {
      hide Next, Terminated, Named, Valued, Be32, ApplyProperty, AlignUp, LayoutOk, Roomy;
      NextPropertyShape(blob, l, at);
      ValuedNext(blob, l, at);
      ghost var e := Next(blob, l, at).value.event;
      assert x0 - base == l.strings + Be32(blob, at + 8) && x16 - base == at + 12 && x5 - base == l.stringsEnd;
      ok := PropertyMeaning(x0, x16, x18, w14, e.name, e.value);
      hide Tree;
      if ok {
        MoveTo(x17);
      }
    }

    method MoveTo(x: nat)
      modifies this`x2
      ensures x2 == x && Tree() == old(Tree())
    {
      x2 := x;
    }

    // ----- the walk -----

    /** Start and end of a block, if its offset is past the header and it lies inside the blob. */
    method Block(offset: nat, size: nat, x1: nat) returns (ok: bool, start: nat, end: nat)
      requires Placed() && offset < TWO_32 && size < TWO_32 && x1 == base + |blob|
      ensures ok <==> HEADER_BYTES <= offset && offset + size <= |blob|
      ensures ok ==> start == base + offset && end == base + offset + size
    {
      start, end := 0, 0;
      if offset < 40 {
        return false, start, end;
      }
      start := Add(base, offset);
      if start < base {
        return false, start, end;
      }
      end := Add(start, size);
      ok := start <= end <= x1;
    }

    /** Magic number, total size and versions. */
    method CheckHeader() returns (ok: bool)
      requires Sized(blob) && Placed()
      ensures ok <==> Headed(blob)
      ensures ok ==> |blob| >= HEADER_BYTES
    {
      hide Be32;
      if Word(base) != MAGIC || Word(base + 4) < 40 || Word(base + 4) > MAX_DTB_BYTES {
        return false;
      }
      var x1 := Add(base, Word(base + 4));
      ok := x1 >= base && Word(base + 20) >= 17 && Word(base + 24) <= 17;
    }

    method ReadLayout() returns (ok: bool)
      requires Sized(blob) && Roomy(base, |blob|)
      modifies this
      ensures ok <==> base != 0 && base % 8 == 0 && ReadHeader(blob).Some?
      ensures ok ==> At(ReadHeader(blob).value, ReadHeader(blob).value.structure) && Tree() == START
    {
      hide Be32, Sized, ReadHeader, Headed;
      if base == 0 || base % 8 != 0 {
        return false;
      }
      ok := CheckHeader();
      HeaderShape(blob);
      if !ok {
        return;
      }
      ok := Word(base + 36) >= 4;
      if !ok {
        return;
      }
      var start, end;
      ok, start, end := Block(Word(base + 8), Word(base + 36), base + |blob|);
      if !ok {
        return;
      }
      x2, x3 := start, end;
      ok, start, end := Block(Word(base + 12), Word(base + 32), base + |blob|);
      if !ok {
        return;
      }
      x4, x5 := start, end;
      hide LayoutOk, Tree;
      Reset();
    }

    method Reset()
      modifies this`w6, this`w7, this`w8, this`pl011, this`memory, this`reg, this`x10, this`x11, this`x12, this`w13
      ensures Tree() == START && w6 == TWO_32 - 1 && x10 == 0 && x11 == 0
    {
      w6, w7, w8 := TWO_32 - 1, 0, 0;
      pl011, memory, reg, x10, x11, x12, w13 := false, false, false, 0, 0, 0, 0;
    }

    /** One token other than the last. */
    method Handle(w14: nat, ghost l: Layout, ghost at: nat) returns (ok: bool)
      requires HEADER_BYTES <= at && At(l, at + 4) && Be32(blob, at) == w14 && w14 != 9
      modifies this
      ensures Handled(l, at, old(Tree()), ok)
    {
      if w14 == 1 {
        ok := BeginNode(l, at);
      } else if w14 == 2 {
        ok := EndNode(l, at);
      } else if w14 == 3 {
        ok := PropertyToken(l, at);
      } else {
        hide Be32, LayoutOk;
        ok := w14 == 4;
      }
    }

    method Finish() returns (r: Option<nat>)
      requires w6 <= 64 || w6 == TWO_32 - 1
      ensures r == if Complete(Tree()) then Some(Tree().uart) else None
    {
      if (w6 + 1) % TWO_32 != 0 || w7 != 2 || w8 != 2 || x12 == 0 || w13 != 1 {
        return None;
      }
      r := Some(x12);
    }

    /** The whole walk: ends on every blob, reads only inside it, and finds what the specification finds. */
    method Walk() returns (r: Option<nat>)
      requires Sized(blob) && Roomy(base, |blob|)
      modifies this
      ensures r == if base == 0 || base % 8 != 0 || ReadHeader(blob).None? then None
                   else Survey(blob, ReadHeader(blob).value, ReadHeader(blob).value.structure, START, image)
    {
      hide Survey, LayoutOk, Tree, ReadHeader, Next, Apply, Sized;
      var ok := ReadLayout();
      if !ok {
        return None;
      }
      ghost var l := ReadHeader(blob).value;
      ghost var at := l.structure;
      while true
        invariant At(l, at) && Survey(blob, l, at, Tree(), image) == Survey(blob, l, l.structure, START, image)
        decreases l.structureEnd - at
      {
        SurveyStep(blob, l, at, Tree(), image);
        EndInside(blob, l);
        var x16 := Add(x2, 4);
        if x16 < x2 || x16 > x3 {
          return None;
        }
        InsideBlob(blob, l, at);
        var w14 := Word(x2);
        if w14 == 9 {
          r := Finish();
          FinishStep(blob, l, at);
          return;
        }
        ghost var t := Tree();
        MoveTo(x16);
        ok := Handle(w14, l, at);
        OtherToken(blob, l, at);
        if !ok {
          return None;
        }
        at := Next(blob, l, at).value.next;
      }
    }
  }

  predicate Headed(b: Blob)
    requires Sized(b)
  {
    Be32(b, 0) == MAGIC && HEADER_BYTES <= Be32(b, 4) <= MAX_DTB_BYTES && Be32(b, 20) >= 17 && Be32(b, 24) <= 17
  }

  lemma HeaderShape(b: Blob)
    requires Sized(b)
    ensures ReadHeader(b).Some? ==> Headed(b)
    ensures Headed(b) ==> |b| >= HEADER_BYTES
    ensures Headed(b) ==>
              var (at, size, strings, length) := (Be32(b, 8), Be32(b, 36), Be32(b, 12), Be32(b, 32));
              && (ReadHeader(b).Some? <==>
                    && size >= 4
                    && HEADER_BYTES <= at && at + size <= |b|
                    && HEADER_BYTES <= strings && strings + length <= |b|)
              && (ReadHeader(b).Some? ==>
                    && ReadHeader(b).value == Layout(at, at + size, strings, strings + length)
                    && LayoutOk(b, ReadHeader(b).value))
  {
    hide Be32;
  }

  lemma EndInside(b: Blob, l: Layout)
    requires LayoutOk(b, l)
    ensures l.structureEnd <= |b|
  {
  }

  lemma InsideBlob(b: Blob, l: Layout, at: nat)
    requires LayoutOk(b, l) && at + 4 <= l.structureEnd
    ensures at + 4 <= |b|
  {
  }

  /** One turn of the specification. */
  lemma SurveyStep(b: Blob, l: Layout, at: nat, t: Tree, image: Image)
    requires LayoutOk(b, l)
    ensures at + 4 > l.structureEnd ==> Survey(b, l, at, t, image).None?
    ensures Survey(b, l, at, t, image) ==
            match Next(b, l, at)
            case None => None
            case Some(read) =>
              if read.event.Finish? then if Complete(t) then Some(t.uart) else None
              else match Apply(t, read.event, image)
                   case None => None
                   case Some(u) => Survey(b, l, read.next, u, image)
  {
  }

  lemma FinishStep(b: Blob, l: Layout, at: nat)
    requires LayoutOk(b, l) && at + 4 <= l.structureEnd && Be32(b, at) == 9
    ensures Next(b, l, at) == Some(Read(DeviceTree.Finish, at + 4))
  {
  }

  lemma OtherToken(b: Blob, l: Layout, at: nat)
    requires LayoutOk(b, l) && at + 4 <= l.structureEnd && Be32(b, at) != 9
    ensures Next(b, l, at).Some? ==> !Next(b, l, at).value.event.Finish?
  {
  }

  lemma ValueEnd(base: nat, v: nat, length: nat)
    requires base % 8 == 0
    ensures AlignUp(v + length) >= v + length && ClearLow(base + v + length + 3) == base + AlignUp(v + length)
  {
    EighthsApart(base / 8, v + length + 3);
  }

  lemma MemoryLength()
    ensures |MEMORY| == 7
  {
  }

  /** The name is a terminated string inside the block. */
  predicate Terminated(b: Blob, n: nat, end: nat, name: seq<Byte>)
  {
    n < end <= |b| && FindZero(b, n, end) < end && name == b[n..FindZero(b, n, end)]
  }

  predicate Valued(b: Blob, l: Layout, at: nat)
    requires LayoutOk(b, l)
  {
    at + 12 <= l.structureEnd && AlignUp(at + 12 + Be32(b, at + 4)) <= l.structureEnd
  }

  predicate Named(b: Blob, l: Layout, at: nat)
    requires LayoutOk(b, l) && at + 12 <= l.structureEnd
  {
    l.strings + Be32(b, at + 8) < l.stringsEnd && FindZero(b, l.strings + Be32(b, at + 8), l.stringsEnd) < l.stringsEnd
  }

  /** A property token reads exactly when its value and its name are in their blocks. */
  lemma NextPropertyShape(b: Blob, l: Layout, at: nat)
    requires LayoutOk(b, l) && at + 4 <= l.structureEnd && Be32(b, at) == 3
    ensures Next(b, l, at).Some? <==> Valued(b, l, at) && Named(b, l, at)
    ensures Next(b, l, at).Some? ==>
              var (read, length) := (Next(b, l, at).value, Be32(b, at + 4));
              && read.event.Property? && read.next == AlignUp(at + 12 + length)
              && l.strings + Be32(b, at + 8) < l.stringsEnd
              && Terminated(b, l.strings + Be32(b, at + 8), l.stringsEnd, read.event.name)
              && at + 12 + length <= |b| && read.event.value == b[at + 12..at + 12 + length]
  {
    hide FindZero;
    assert Next(b, l, at) == NextProperty(b, l, at);
  }

  lemma ValuedNext(b: Blob, l: Layout, at: nat)
    requires LayoutOk(b, l) && HEADER_BYTES <= at && at + 8 <= |b| && Valued(b, l, at)
    ensures HEADER_BYTES <= AlignUp(at + 12 + Be32(b, at + 4)) <= l.structureEnd
  {
    hide Be32;
  }

  lemma WordInSlice(blob: Blob, a: nat, b: nat, i: nat)
    requires a <= b <= |blob| && a + i + 4 <= b
    ensures Be32(blob[a..b], i) == Be32(blob, a + i)
  {
  }

  predicate NoZero(s: seq<Byte>)
  {
    forall i :: 0 <= i < |s| ==> s[i] != 0
  }

  /** Comparing with the terminated constant is comparing the name up to its terminator. */
  lemma NameMatches(b: Blob, n: nat, end: nat, name: seq<Byte>)
    requires n < end <= |b| && FindZero(b, n, end) < end && NoZero(name)
    ensures n + |name| + 1 <= end && b[n..n + |name| + 1] == name + [0] <==> b[n..FindZero(b, n, end)] == name
  {
    var z := FindZero(b, n, end);
    if n + |name| + 1 <= end && b[n..n + |name| + 1] == name + [0] {
      forall i | 0 <= i < |name| ensures b[n + i] == name[i] {
        assert b[n..n + |name| + 1][i] == (name + [0])[i];
      }
      assert b[n + |name|] == b[n..n + |name| + 1][|name|] == 0;
      assert z == n + |name|;
    }
    if b[n..z] == name {
      assert b[n..z + 1] == b[n..z] + [b[z]];
    }
  }

  const TERMINATOR: seq<Byte> := [0]

  lemma NamesPlain()
    ensures NoZero(ADDRESS_CELLS) && NoZero(SIZE_CELLS) && NoZero(COMPATIBLE) && NoZero(DEVICE_TYPE) && NoZero(REG)
    ensures |ADDRESS_CELLS| < 4000 && |SIZE_CELLS| < 4000 && |COMPATIBLE| < 4000 && |DEVICE_TYPE| < 4000 && |REG| < 4000
  {
  }

  lemma ConsoleLength()
    ensures |PL011| < 4096
  {
  }

  /** One string of the list, told by absolute offsets. */
  lemma ConsoleStep(blob: Blob, a: nat, b: nat, c: nat)
    requires a <= c <= b <= |blob|
    ensures FindConsole(blob[a..b], c - a) ==
            if c == b then Absent
            else if c + |PL011| <= b && blob[c..c + |PL011|] == PL011 then Present
            else if FindZero(blob, c, b) == b then Broken else FindConsole(blob[a..b], FindZero(blob, c, b) + 1 - a)
  {
    hide FindZero, PL011;
    if c + |PL011| <= b { SliceOfSlice(blob, a, b, c, |PL011|); }
    ZeroInSlice(blob, a, b, c);
  }

  lemma SliceOfSlice(blob: Blob, a: nat, b: nat, c: nat, n: nat)
    requires a <= c && c + n <= b <= |blob|
    ensures blob[a..b][c - a..c - a + n] == blob[c..c + n]
  {
    var (x, y) := (blob[a..b][c - a..c - a + n], blob[c..c + n]);
    assert forall i :: 0 <= i < n ==> x[i] == blob[a..b][c - a + i] == blob[c + i] == y[i];
  }

  lemma NextBegin(b: Blob, l: Layout, at: nat)
    requires LayoutOk(b, l) && at + 4 <= l.structureEnd && Be32(b, at) == 1
    ensures var z := FindZero(b, at + 4, l.structureEnd);
            Next(b, l, at) == if z == l.structureEnd || AlignUp(z + 1) > l.structureEnd then None
                              else Some(Read(Begin(b[at + 4..z]), AlignUp(z + 1)))
  {
  }

  lemma {:induction false} ZeroInSlice(blob: Blob, a: nat, b: nat, c: nat)
    requires a <= c <= b <= |blob|
    ensures FindZero(blob[a..b], c - a, b - a) == FindZero(blob, c, b) - a
    decreases b - c
  {
    if c < b && blob[c] != 0 {
      ZeroInSlice(blob, a, b, c + 1);
    }
  }
}
