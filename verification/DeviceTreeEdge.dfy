/**
 * Blobs at the very end of the address space. The walk rounds the cursor up after a node name without
 * checking the addition; this is exactly when that lets it leave the blob.
 */
module DeviceTreeEdge {
  import opened Options
  import opened Bytes
  import opened DeviceTree
  import opened DeviceTreeWalk

  // ----- the cursor as an address -----

  /** Where the cursor is put after a node name that ends before offset `i`. */
  function AfterName(base: nat, i: nat): nat
  {
    ClearLow(Add(base + i, 3))
  }

  /** The cursor lands on the rounded offset exactly when the sum does not wrap, and at address zero
      otherwise. */
  lemma AfterNameWraps(base: nat, i: nat)
    requires base > 0 && base % 8 == 0 && base + i < TWO_64
    ensures base + i + 3 < TWO_64 ==> AfterName(base, i) == base + AlignUp(i)
    ensures base + i + 3 >= TWO_64 ==> AfterName(base, i) == 0
  {
    if base + i + 3 < TWO_64 {
      AlignedAddress(base, i);
    } else {
      assert Add(base + i, 3) == base + i + 3 - TWO_64 < 3;
    }
  }

  datatype Cursor = Cursor(x: nat, tree: Tree)

  /** The guards of the token loop let the load at the cursor happen. */
  predicate Loads(x: nat, end: nat)
  {
    Add(x, 4) >= x && Add(x, 4) <= end
  }

  /** A word load at the address stays inside the blob. */
  predicate Inside(base: nat, b: Blob, x: nat)
  {
    base <= x && x + 4 <= base + |b|
  }

  /** What the loop makes of the token at an offset, with the cursor as the address it computes. */
  function Token(base: nat, b: Blob, l: Layout, image: Image, at: nat, t: Tree): Option<Cursor>
    requires LayoutOk(b, l) && at + 4 <= |b|
  {
    if Be32(b, at) == 1 && at + 4 <= l.structureEnd then
      var z := FindZero(b, at + 4, l.structureEnd);
      if z == l.structureEnd || AfterName(base, z + 1) > base + l.structureEnd then None
      else Moved(Apply(t, Begin(b[at + 4..z]), image), AfterName(base, z + 1))
    else match Next(b, l, at)
         case None => None
         case Some(read) => if read.event.Finish? then None else Moved(Apply(t, read.event, image), base + read.next)
  }

  function Moved(t: Option<Tree>, x: nat): Option<Cursor>
  {
    if t.None? then None else Some(Cursor(x, t.value))
  }

  /** The cursor after `n` tokens; nothing once the walk has ended or left the blob. */
  function Position(base: nat, b: Blob, l: Layout, image: Image, n: nat): Option<Cursor>
    requires LayoutOk(b, l)
  {
    if n == 0 then Some(Cursor(base + l.structure, START))
    else match Position(base, b, l, image, n - 1)
         case None => None
         case Some(c) =>
           if Loads(c.x, base + l.structureEnd) && Inside(base, b, c.x)
           then Token(base, b, l, image, c.x - base, c.tree) else None
  }

  /** The walk never loads a token from outside the blob. */
  ghost predicate Stays(base: nat, b: Blob, l: Layout, image: Image)
    requires LayoutOk(b, l)
  {
    forall n: nat ::
      Position(base, b, l, image, n).Some? && Loads(Position(base, b, l, image, n).value.x, base + l.structureEnd) ==>
      Inside(base, b, Position(base, b, l, image, n).value.x)
  }

  // ----- away from the end -----

  /** The cursor is at an offset of the structure block, or where no load can follow. */
  lemma {:induction false} PositionInside(base: nat, b: Blob, l: Layout, image: Image, n: nat)
    requires LayoutOk(b, l) && base > 0 && base % 8 == 0 && base + |b| + 3 < TWO_64
    ensures Position(base, b, l, image, n).Some? ==>
              base <= Position(base, b, l, image, n).value.x <= base + l.structureEnd
    decreases n
  {
    hide Token;
    if n > 0 {
      PositionInside(base, b, l, image, n - 1);
      var before := Position(base, b, l, image, n - 1);
      if before.Some? && Loads(before.value.x, base + l.structureEnd) && Inside(base, b, before.value.x) {
        TokenInside(base, b, l, image, before.value.x - base, before.value.tree);
      }
    }
  }

  lemma TokenInside(base: nat, b: Blob, l: Layout, image: Image, at: nat, t: Tree)
    requires LayoutOk(b, l) && at + 4 <= |b| && base > 0 && base % 8 == 0 && base + |b| + 3 < TWO_64
    ensures Token(base, b, l, image, at, t).Some? ==>
              base <= Token(base, b, l, image, at, t).value.x <= base + l.structureEnd
  {
    hide Apply, Be32, AlignUp, AfterName;
    if Be32(b, at) == 1 && at + 4 <= l.structureEnd {
      var z := FindZero(b, at + 4, l.structureEnd);
      if z < l.structureEnd {
        AfterNameWraps(base, z + 1);
      }
    }
  }

  lemma AwayStays(base: nat, b: Blob, l: Layout, image: Image)
    requires LayoutOk(b, l) && base > 0 && base % 8 == 0 && base + |b| + 3 < TWO_64
    ensures Stays(base, b, l, image)
  {
    hide Position, Token;
    forall n: nat | Position(base, b, l, image, n).Some?
        && Loads(Position(base, b, l, image, n).value.x, base + l.structureEnd)
      ensures Inside(base, b, Position(base, b, l, image, n).value.x)
    {
      PositionInside(base, b, l, image, n);
    }
  }

  /** Away from the end the addresses are the offsets of the specification. */
  lemma TokenIsNext(base: nat, b: Blob, l: Layout, image: Image, at: nat, t: Tree)
    requires LayoutOk(b, l) && at + 4 <= l.structureEnd && base > 0 && base % 8 == 0 && base + |b| + 3 < TWO_64
    ensures Token(base, b, l, image, at, t) ==
            match Next(b, l, at)
            case None => None
            case Some(read) => if read.event.Finish? then None else Moved(Apply(t, read.event, image), base + read.next)
  {
    hide Apply, Be32, AlignUp, AfterName;
    if Be32(b, at) == 1 {
      var z := FindZero(b, at + 4, l.structureEnd);
      if z < l.structureEnd {
        AfterNameWraps(base, z + 1);
      }
    }
  }

  /** Away from the end, the walk from every position is the rest of the walk that `Walk` carries out. */
  lemma {:induction false} PositionSurveys(base: nat, b: Blob, l: Layout, image: Image, n: nat)
    requires LayoutOk(b, l) && base > 0 && base % 8 == 0 && base + |b| + 3 < TWO_64
    ensures match Position(base, b, l, image, n)
            case None => true
            case Some(c) =>
              base <= c.x && Survey(b, l, c.x - base, c.tree, image) == Survey(b, l, l.structure, START, image)
    decreases n
  {
    hide Token, Next, Apply, Survey;
    if n > 0 {
      PositionSurveys(base, b, l, image, n - 1);
      var before := Position(base, b, l, image, n - 1);
      if before.Some? && Loads(before.value.x, base + l.structureEnd) && Inside(base, b, before.value.x) {
        var at := before.value.x - base;
        TokenIsNext(base, b, l, image, at, before.value.tree);
        SurveyStep(b, l, at, before.value.tree, image);
      }
    }
  }

  /** A structure block too short for a name cannot move the cursor past one. */
  lemma TokenShort(base: nat, b: Blob, l: Layout, image: Image, at: nat, t: Tree)
    requires LayoutOk(b, l) && |b| < HEADER_BYTES + 5 && HEADER_BYTES <= at && at + 4 <= |b|
    ensures Token(base, b, l, image, at, t).Some? ==>
              base + HEADER_BYTES <= Token(base, b, l, image, at, t).value.x <= base + l.structureEnd
  {
    hide Apply, Be32, AlignUp, AfterName;
  }

  lemma {:induction false} PositionShort(base: nat, b: Blob, l: Layout, image: Image, n: nat)
    requires LayoutOk(b, l) && |b| < HEADER_BYTES + 5
    ensures Position(base, b, l, image, n).Some? ==>
              base + HEADER_BYTES <= Position(base, b, l, image, n).value.x <= base + l.structureEnd
    decreases n
  {
    hide Token;
    if n > 0 {
      PositionShort(base, b, l, image, n - 1);
      var before := Position(base, b, l, image, n - 1);
      if before.Some? && Loads(before.value.x, base + l.structureEnd) && Inside(base, b, before.value.x) {
        TokenShort(base, b, l, image, before.value.x - base, before.value.tree);
      }
    }
  }

  lemma ShortStays(base: nat, b: Blob, l: Layout, image: Image)
    requires LayoutOk(b, l) && base + |b| < TWO_64 && |b| < HEADER_BYTES + 5
    ensures Stays(base, b, l, image)
  {
    hide Position, Token;
    forall n: nat | Position(base, b, l, image, n).Some?
        && Loads(Position(base, b, l, image, n).value.x, base + l.structureEnd)
      ensures Inside(base, b, Position(base, b, l, image, n).value.x)
    {
      PositionShort(base, b, l, image, n);
    }
  }

  // ----- a blob that reaches the end -----

  /** Byte `k` of a big-endian word. */
  function BigEndian(n: nat, k: nat): Byte
  {
    if k == 0 then n / 0x100_0000 % 256 else if k == 1 then n / 0x1_0000 % 256 else if k == 2 then n / 0x100 % 256
    else n % 256
  }

  /** A header, one node token, and a name that ends with the blob. */
  function LastByte(total: nat, i: nat): Byte
    requires total >= HEADER_BYTES
  {
    if i < 4 then BigEndian(MAGIC, i)
    else if i < 8 then BigEndian(total, i - 4)
    else if i == 11 || i == 15 then 40
    else if i == 23 || i == 27 then 17
    else if 36 <= i < 40 then BigEndian(total - 40, i - 36)
    else if i == 43 then 1
    else if 44 <= i < total - 1 then 110
    else 0
  }

  function LastBlob(total: nat): (b: Blob)
    requires total >= HEADER_BYTES
    ensures |b| == total && forall i :: 0 <= i < total ==> b[i] == LastByte(total, i)
  {
    seq(total, i requires 0 <= i < total => LastByte(total, i))
  }

  lemma WordOf(b: Blob, i: nat, n: nat)
    requires i + 4 <= |b| && n < FOUR_GIB && forall k :: 0 <= k < 4 ==> b[i + k] == BigEndian(n, k)
    ensures Be32(b, i) == n
  {
    assert b[i + 0] == BigEndian(n, 0) && b[i + 1] == BigEndian(n, 1) && b[i + 2] == BigEndian(n, 2)
           && b[i + 3] == BigEndian(n, 3);
    var (x, y) := (n / 0x100, n / 0x1_0000);
    assert x / 0x100 == y && y / 0x100 == n / 0x100_0000;
  }

  lemma LastWord(total: nat, i: nat, n: nat)
    requires 45 <= total && i + 4 <= 44 && n < FOUR_GIB
             && forall k :: 0 <= k < 4 ==> LastByte(total, i + k) == BigEndian(n, k)
    ensures Be32(LastBlob(total), i) == n
  {
    hide LastByte, BigEndian, Be32;
    forall k | 0 <= k < 4 ensures LastBlob(total)[i + k] == BigEndian(n, k) {
      assert LastBlob(total)[i + k] == LastByte(total, i + k);
    }
    WordOf(LastBlob(total), i, n);
  }

  lemma LastHeader(total: nat)
    requires HEADER_BYTES + 5 <= total <= MAX_DTB_BYTES
    ensures Sized(LastBlob(total)) && ReadHeader(LastBlob(total)) == Some(Layout(40, total, 40, 40))
            && Be32(LastBlob(total), 40) == 1
  {
    LastWord(total, 0, MAGIC);
    LastWord(total, 4, total);
    LastWord(total, 8, 40);
    LastWord(total, 12, 40);
    LastWord(total, 20, 17);
    LastWord(total, 24, 17);
    LastWord(total, 32, 0);
    LastWord(total, 36, total - 40);
    LastWord(total, 40, 1);
    hide Be32, LastBlob;
  }

  lemma LastName(total: nat)
    requires HEADER_BYTES + 5 <= total
    ensures FindZero(LastBlob(total), 44, total) == total - 1
  {
    hide FindZero;
    var b := LastBlob(total);
    assert b[total - 1] == LastByte(total, total - 1) == 0;
    forall i | 44 <= i < total - 1 ensures b[i] != 0 {
      assert b[i] == LastByte(total, i);
    }
  }

  /** At such a base the first name of that blob moves the cursor to address zero, and the loop loads
      from there. */
  lemma LastStrays(base: nat, total: nat, image: Image)
    requires base > 0 && base % 8 == 0 && base + total < TWO_64 <= base + total + 3
             && HEADER_BYTES + 5 <= total <= MAX_DTB_BYTES
    ensures Sized(LastBlob(total)) && ReadHeader(LastBlob(total)).Some?
    ensures !Stays(base, LastBlob(total), ReadHeader(LastBlob(total)).value, image)
  {
    hide Be32, FindZero, LastBlob, ReadHeader, Sized, AfterName;
    LastHeader(total);
    LastName(total);
    AfterNameWraps(base, total);
    var (b, l) := (LastBlob(total), Layout(40, total, 40, 40));
    assert Position(base, b, l, image, 0) == Some(Cursor(base + 40, START));
    assert Token(base, b, l, image, 40, START).Some? && Token(base, b, l, image, 40, START).value.x == 0;
    assert Position(base, b, l, image, 1) == Token(base, b, l, image, 40, START);
  }

  /** For every aligned base and every size of blob below the end of memory: all walks over all accepted
      blobs of that size stay inside exactly when the blob ends more than three bytes below 2^64 or is
      too short to hold a name. */
  lemma WalksStayInside(base: nat, total: nat)
    requires base > 0 && base % 8 == 0 && base + total < TWO_64 && HEADER_BYTES <= total <= MAX_DTB_BYTES
    ensures (forall b: Blob, image: Image | |b| == total && Sized(b) && ReadHeader(b).Some? ::
               Stays(base, b, ReadHeader(b).value, image))
            <==> Roomy(base, total)
  {
    hide Stays, ReadHeader, Sized;
    if base + total + 3 < TWO_64 || total < HEADER_BYTES + 5 {
      forall b: Blob, image: Image | |b| == total && Sized(b) && ReadHeader(b).Some?
        ensures Stays(base, b, ReadHeader(b).value, image) {
        if base + total + 3 < TWO_64 {
          AwayStays(base, b, ReadHeader(b).value, image);
        } else {
          ShortStays(base, b, ReadHeader(b).value, image);
        }
      }
    } else {
      LastStrays(base, total, Image(0, 0));
    }
  }
}
