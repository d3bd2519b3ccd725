/** Static slots: where every parameter and binding of every function lives. */
module Allocation {
  import opened Kinds
  import opened Source
  import opened Machine
  import opened CodeGen
  import opened Represent

  const MAX_LOCALS: nat := 128

  /** The next multiple of the size. */
  function Aligned(bytes: nat, size: nat): nat
    requires size > 0
  {
    (bytes + size - 1) / size * size
  }

  lemma AlignedIsLeast(bytes: nat, size: nat)
    requires size == 1 || size == 2 || size == 4
    ensures bytes <= Aligned(bytes, size) < bytes + size && Aligned(bytes, size) % size == 0
  {
  }

  /** Slots for the kinds, in order, each aligned to its size. */
  function Slots(kinds: seq<Kind>, bytes: nat): (r: seq<Local>)
    ensures |r| == |kinds|
  {
    if kinds == [] then []
    else
      var at := Aligned(bytes, Bytes(kinds[0]));
      [Local(at, kinds[0])] + Slots(kinds[1..], at + Bytes(kinds[0]))
  }

  function End(kinds: seq<Kind>, bytes: nat): nat
  {
    if kinds == [] then bytes else End(kinds[1..], Aligned(bytes, Bytes(kinds[0])) + Bytes(kinds[0]))
  }

  lemma {:induction false} SlotsAppend(a: seq<Kind>, b: seq<Kind>, bytes: nat)
    ensures Slots(a + b, bytes) == Slots(a, bytes) + Slots(b, End(a, bytes))
            && End(a + b, bytes) == End(b, End(a, bytes))
    decreases a
  {
    hide Aligned;
    if a == [] {
      assert a + b == b;
    } else {
      assert (a + b)[1..] == a[1..] + b;
      SlotsAppend(a[1..], b, Aligned(bytes, Bytes(a[0])) + Bytes(a[0]));
    }
  }

  lemma {:induction false} EndGrows(kinds: seq<Kind>, bytes: nat)
    ensures bytes <= End(kinds, bytes)
    decreases kinds
  {
    if kinds != [] {
      AlignedIsLeast(bytes, Bytes(kinds[0]));
      EndGrows(kinds[1..], Aligned(bytes, Bytes(kinds[0])) + Bytes(kinds[0]));
    }
  }

  /** Every slot is aligned, has its kind, and lies between what was allocated before and the end. */
  lemma {:induction false} SlotAt(kinds: seq<Kind>, bytes: nat, i: nat)
    requires i < |kinds|
    ensures var l := Slots(kinds, bytes)[i];
            l.kind == kinds[i] && bytes <= l.at && l.at + Bytes(l.kind) <= End(kinds, bytes)
                && l.at % Bytes(l.kind) == 0
    decreases kinds
  {
    AlignedIsLeast(bytes, Bytes(kinds[0]));
    var next := Aligned(bytes, Bytes(kinds[0])) + Bytes(kinds[0]);
    hide Aligned, Bytes;
    EndGrows(kinds[1..], next);
    if i > 0 {
      SlotAt(kinds[1..], next, i - 1);
      assert kinds[i] == kinds[1..][i - 1];
    }
  }

  /** Later slots lie after earlier ones. */
  lemma {:induction false} SlotsInOrder(kinds: seq<Kind>, bytes: nat, i: nat, j: nat)
    requires i < j < |kinds|
    ensures Slots(kinds, bytes)[i].at + Bytes(kinds[i]) <= Slots(kinds, bytes)[j].at
    decreases kinds
  {
    var next := Aligned(bytes, Bytes(kinds[0])) + Bytes(kinds[0]);
    hide Aligned, Bytes;
    if i == 0 {
      SlotAt(kinds[1..], next, j - 1);
    } else {
      SlotsInOrder(kinds[1..], next, i - 1, j - 1);
      assert kinds[i] == kinds[1..][i - 1];
    }
  }

  /** Within the region, the slots of one function form a proper frame. */
  lemma SlotsFrame(kinds: seq<Kind>, bytes: nat)
    requires End(kinds, bytes) <= LOCAL_BYTES
    ensures FrameOk(Slots(kinds, bytes))
  {
    hide Slots, End, Bytes;
    var s := Slots(kinds, bytes);
    forall i | 0 <= i < |s| ensures Fits'(s[i]) {
      SlotAt(kinds, bytes, i);
    }
    forall i, j | 0 <= i < j < |s| ensures Disjoint(s[i], s[j]) {
      SlotAt(kinds, bytes, i);
      SlotsInOrder(kinds, bytes, i, j);
    }
  }

  // ----- functions -----

  /** The kinds of a function's slots: parameters, then every binding in the order of the text. */
  function FrameKinds(f: Function): seq<Kind>
  {
    ParameterKinds(f.parameters) + BlockLets(f.body)
  }

  function ParameterKinds(ps: seq<Parameter>): (r: seq<Kind>)
    ensures |r| == |ps|
  {
    if ps == [] then [] else [ps[0].kind] + ParameterKinds(ps[1..])
  }

  function ProgramKinds(fs: seq<Function>): seq<Kind>
  {
    if fs == [] then [] else FrameKinds(fs[0]) + ProgramKinds(fs[1..])
  }

  /** All slots of the program fit: at most 128 of them, within the region. */
  predicate SlotsFit(fs: seq<Function>)
  {
    |ProgramKinds(fs)| <= MAX_LOCALS && End(ProgramKinds(fs), 0) <= LOCAL_BYTES
  }

  function FrameAt(f: Function, bytes: nat): seq<Local>
  {
    Slots(FrameKinds(f), bytes)
  }

  function NextBytes(f: Function, bytes: nat): nat
  {
    End(FrameKinds(f), bytes)
  }
}
