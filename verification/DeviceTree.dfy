/**
 * The device-tree walk of the AArch64 start-up code: a token loop over an untrusted blob that finds the
 * console and checks that memory holds the image (Devicetree Specification v0.4, sections 5.2 and 5.4).
 */
module DeviceTree {
  import opened Options
  import opened Bytes

  const MAGIC: nat := 0xd00d_feed
  const MAX_DTB_BYTES: nat := 0x20_0000
  const HEADER_BYTES: nat := 40
  const MAX_DEPTH: int := 64
  const PAGE: nat := 0x1000
  const FOUR_GIB: nat := 0x1_0000_0000
  const ONE_GIB: nat := 0x4000_0000
  const TWO_64: nat := 0x1_0000_0000_0000_0000

  type Blob = seq<Byte>

  function Be32(b: Blob, i: nat): (n: nat)
    requires i + 4 <= |b|
    ensures n < FOUR_GIB
  {
    0x100_0000 * (b[i] as int) + 0x1_0000 * (b[i + 1] as int) + 0x100 * (b[i + 2] as int) + b[i + 3] as int
  }

  function AlignUp(i: nat): nat
  {
    (i + 3) / 4 * 4
  }

  /** The first zero byte at or after `i`, or `end` if there is none before it. */
  function FindZero(b: Blob, i: nat, end: nat): (k: nat)
    requires i <= end <= |b|
    ensures i <= k <= end && (forall j :: i <= j < k ==> b[j] != 0) && (k < end ==> b[k] == 0)
    decreases end - i
  {
    if i == end || b[i] == 0 then i else FindZero(b, i + 1, end)
  }

  // ----- header -----

  datatype Layout = Layout(structure: nat, structureEnd: nat, strings: nat, stringsEnd: nat)

  /** The blob starts with the magic number and is as long as it says. */
  predicate Sized(b: Blob)
  {
    |b| >= 8 && (Be32(b, 0) == MAGIC && HEADER_BYTES <= Be32(b, 4) <= MAX_DTB_BYTES ==> |b| == Be32(b, 4))
  }

  predicate LayoutOk(b: Blob, l: Layout)
  {
    && HEADER_BYTES <= l.structure && l.structure + 4 <= l.structureEnd <= |b|
    && HEADER_BYTES <= l.strings <= l.stringsEnd <= |b|
  }

  function ReadHeader(b: Blob): (r: Option<Layout>)
    requires Sized(b)
    ensures r.Some? ==> LayoutOk(b, r.value)
  {
    if Be32(b, 0) != MAGIC || Be32(b, 4) < HEADER_BYTES || Be32(b, 4) > MAX_DTB_BYTES then None
    else if Be32(b, 20) < 17 || Be32(b, 24) > 17 then None
    else
      var l := Layout(Be32(b, 8), Be32(b, 8) + Be32(b, 36), Be32(b, 12), Be32(b, 12) + Be32(b, 32));
      if l.structure < HEADER_BYTES || Be32(b, 36) < 4 || l.structureEnd > |b| || l.strings < HEADER_BYTES
          || l.stringsEnd > |b|
      then None else Some(l)
  }

  // ----- tokens -----

  datatype Event = Begin(name: seq<Byte>) | End | Property(name: seq<Byte>, value: seq<Byte>) | Nop | Finish

  datatype Read = Read(event: Event, next: nat)

  /** The token at an offset and where the next one starts. */
  function Next(b: Blob, l: Layout, at: nat): (r: Option<Read>)
    requires LayoutOk(b, l)
    ensures r.Some? ==> at + 4 <= r.value.next <= l.structureEnd
  {
    if at + 4 > l.structureEnd then None
    else
      var token := Be32(b, at);
      if token == 1 then
        var z := FindZero(b, at + 4, l.structureEnd);
        if z == l.structureEnd || AlignUp(z + 1) > l.structureEnd then None
        else Some(Read(Begin(b[at + 4..z]), AlignUp(z + 1)))
      else if token == 2 then Some(Read(End, at + 4))
      else if token == 3 then NextProperty(b, l, at)
      else if token == 4 then Some(Read(Nop, at + 4))
      else if token == 9 then Some(Read(Finish, at + 4))
      else None
  }

  function NextProperty(b: Blob, l: Layout, at: nat): (r: Option<Read>)
    requires LayoutOk(b, l) && at + 4 <= l.structureEnd
    ensures r.Some? ==> at + 4 <= r.value.next <= l.structureEnd
  {
    if at + 12 > l.structureEnd then None
    else
      var (length, name, value) := (Be32(b, at + 4), l.strings + Be32(b, at + 8), at + 12);
      if AlignUp(value + length) > l.structureEnd || name >= l.stringsEnd then None
      else
        var z := FindZero(b, name, l.stringsEnd);
        if z == l.stringsEnd then None else Some(Read(Property(b[name..z], b[value..value + length]),
                                                      AlignUp(value + length)))
  }

  // ----- what the tokens mean -----

  /** What is known of the direct child of the root being read. */
  datatype Node = Node(pl011: bool, memory: bool, reg: bool, base: nat, size: nat)

  const EMPTY: Node := Node(false, false, false, 0, 0)

  datatype Image = Image(start: nat, end: nat)

  datatype Tree = Tree(depth: int, addressCells: bool, sizeCells: bool, node: Node, uart: nat, ram: bool)

  const START: Tree := Tree(-1, false, false, EMPTY, 0, false)

  const ADDRESS_CELLS: seq<Byte> := [0x23, 0x61, 0x64, 0x64, 0x72, 0x65, 0x73, 0x73, 0x2d, 0x63, 0x65, 0x6c, 0x6c, 0x73]
  const SIZE_CELLS: seq<Byte> := [0x23, 0x73, 0x69, 0x7a, 0x65, 0x2d, 0x63, 0x65, 0x6c, 0x6c, 0x73]
  const COMPATIBLE: seq<Byte> := [0x63, 0x6f, 0x6d, 0x70, 0x61, 0x74, 0x69, 0x62, 0x6c, 0x65]
  const DEVICE_TYPE: seq<Byte> := [0x64, 0x65, 0x76, 0x69, 0x63, 0x65, 0x5f, 0x74, 0x79, 0x70, 0x65]
  const REG: seq<Byte> := [0x72, 0x65, 0x67]
  const PL011: seq<Byte> := [0x61, 0x72, 0x6d, 0x2c, 0x70, 0x6c, 0x30, 0x31, 0x31, 0]
  const MEMORY: seq<Byte> := [0x6d, 0x65, 0x6d, 0x6f, 0x72, 0x79, 0]

  /** A list of zero-terminated strings: is one of them the console, and is every string before it terminated? */
  datatype Listed = Broken | Absent | Present

  function FindConsole(value: seq<Byte>, i: nat): Listed
    requires i <= |value|
    decreases |value| - i
  {
    if i == |value| then Absent
    else if i + |PL011| <= |value| && value[i..i + |PL011|] == PL011 then Present
    else
      var z := FindZero(value, i, |value|);
      if z == |value| then Broken else FindConsole(value, z + 1)
  }

  function Be64(value: seq<Byte>, i: nat): (n: nat)
    requires i + 8 <= |value|
    ensures n < TWO_64
  {
    Be32(value, i) * FOUR_GIB + Be32(value, i + 4)
  }

  function ApplyProperty(t: Tree, name: seq<Byte>, value: seq<Byte>): Option<Tree>
  {
    if name == ADDRESS_CELLS then
      if t.depth != 0 then Some(t) else if |value| != 4 || Be32(value, 0) != 2 then None
      else Some(t.(addressCells := true))
    else if name == SIZE_CELLS then
      if t.depth != 0 then Some(t) else if |value| != 4 || Be32(value, 0) != 2 then None
      else Some(t.(sizeCells := true))
    else if name == COMPATIBLE then
      if t.depth != 1 then Some(t)
      else match FindConsole(value, 0)
           case Broken => None
           case Absent => Some(t)
           case Present => Some(t.(node := t.node.(pl011 := true)))
    else if name == DEVICE_TYPE then
      if t.depth == 1 && value == MEMORY then Some(t.(node := t.node.(memory := true))) else Some(t)
    else if name == REG then
      if t.depth != 1 then Some(t)
      else if !t.addressCells || !t.sizeCells || |value| < 16 then None
      else Some(t.(node := t.node.(reg := true, base := Be64(value, 0), size := Be64(value, 8))))
    else Some(t)
  }

  /** A console must sit alone on a page below four gigabytes, outside the gigabyte the image is mapped in. */
  predicate Usable(n: Node)
  {
    n.base != 0 && n.base % PAGE == 0 && n.base < FOUR_GIB && n.size >= PAGE && n.base / ONE_GIB % 512 != 1
  }

  predicate Covers(n: Node, image: Image)
  {
    n.base <= image.start && image.end <= n.base + n.size
  }

  /** Closing a direct child of the root. */
  function Commit(t: Tree, image: Image): Option<Tree>
  {
    var n := t.node;
    if n.pl011 && n.reg && (t.uart != 0 || !Usable(n)) then None
    else if n.memory && n.reg && n.base <= image.start && n.base + n.size >= TWO_64 then None
    else Some(t.(uart := if n.pl011 && n.reg then n.base else t.uart, ram := t.ram
                 || (n.memory && n.reg && Covers(n, image))))
  }

  function Apply(t: Tree, e: Event, image: Image): Option<Tree>
  {
    match e
    case Begin(_) =>
      if t.depth + 1 > MAX_DEPTH then None
      else Some(t.(depth := t.depth + 1, node := if t.depth + 1 == 1 then EMPTY else t.node))
    case End =>
      if t.depth < 0 then None
      else (match if t.depth == 1 then Commit(t, image) else Some(t)
            case None => None
            case Some(u) => Some(u.(depth := u.depth - 1)))
    case Property(name, value) => ApplyProperty(t, name, value)
    case Nop => Some(t)
    case Finish => Some(t)
  }

  predicate Complete(t: Tree)
  {
    t.depth == -1 && t.addressCells && t.sizeCells && t.uart != 0 && t.ram
  }

  /** The whole walk from an offset on: the console's address if everything checks out. */
  function Survey(b: Blob, l: Layout, at: nat, t: Tree, image: Image): Option<nat>
    requires LayoutOk(b, l)
    decreases l.structureEnd + 4 - at
  {
    match Next(b, l, at)
    case None => None
    case Some(read) =>
      if read.event.Finish? then if Complete(t) then Some(t.uart) else None
      else match Apply(t, read.event, image)
           case None => None
           case Some(u) => Survey(b, l, read.next, u, image)
  }

  // ----- success, told by tokens -----

  /** The tokens, in order, from one offset to another. */
  predicate Spelled(b: Blob, l: Layout, at: nat, events: seq<Event>, next: nat)
    requires LayoutOk(b, l)
    decreases events
  {
    if events == [] then at == next
    else match Next(b, l, at)
         case None => false
         case Some(read) => read.event == events[0] && Spelled(b, l, read.next, events[1..], next)
  }

  function Fold(t: Tree, events: seq<Event>, image: Image): Option<Tree>
    decreases events
  {
    if events == [] then Some(t)
    else match Apply(t, events[0], image)
         case None => None
         case Some(u) => Fold(u, events[1..], image)
  }

  predicate NoFinish(events: seq<Event>)
  {
    forall i :: 0 <= i < |events| ==> !events[i].Finish?
  }

  ghost predicate Told(b: Blob, l: Layout, at: nat, t: Tree, image: Image, events: seq<Event>, end: nat, uart: nat)
    requires LayoutOk(b, l)
  {
    && NoFinish(events) && Spelled(b, l, at, events, end) && Next(b, l, end).Some?
    && Next(b, l, end).value.event.Finish?
    && Fold(t, events, image).Some? && Complete(Fold(t, events, image).value)
    && Fold(t, events, image).value.uart == uart
  }

  lemma {:induction false} SurveyTells(b: Blob, l: Layout, at: nat, t: Tree, image: Image)
      returns (events: seq<Event>, end: nat)
    requires LayoutOk(b, l) && Survey(b, l, at, t, image).Some?
    ensures Told(b, l, at, t, image, events, end, Survey(b, l, at, t, image).value)
    decreases l.structureEnd + 4 - at
  {
    hide Apply, Complete, LayoutOk;
    var read := Next(b, l, at).value;
    if read.event.Finish? {
      events, end := [], at;
    } else {
      var u := Apply(t, read.event, image).value;
      var rest;
      rest, end := SurveyTells(b, l, read.next, u, image);
      hide Next;
      events := [read.event] + rest;
      assert events[1..] == rest;
    }
  }

  lemma {:induction false} ToldSurveys(b: Blob, l: Layout, at: nat, t: Tree, image: Image, events: seq<Event>, end: nat,
                                       uart: nat)
    requires LayoutOk(b, l) && Told(b, l, at, t, image, events, end, uart)
    ensures Survey(b, l, at, t, image) == Some(uart)
    decreases events
  {
    hide Apply, Complete, LayoutOk;
    if events != [] {
      var read := Next(b, l, at).value;
      ToldSurveys(b, l, read.next, Apply(t, events[0], image).value, image, events[1..], end, uart);
    }
  }

  // ----- what success means -----

  function Opens(events: seq<Event>): int
  {
    if events == [] then 0
    else Opens(events[..|events| - 1]) + (match events[|events| - 1] case Begin(_) => 1 case End => -1 case _ => 0)
  }

  /** Every node is closed once and none is closed before it is opened. */
  predicate Balanced(events: seq<Event>)
  {
    Opens(events) == 0 && forall i :: 0 <= i <= |events| ==> 0 <= Opens(events[..i]) <= MAX_DEPTH + 1
  }

  lemma {:induction false} FoldAppend(t: Tree, events: seq<Event>, e: Event, image: Image)
    ensures Fold(t, events + [e], image) == match Fold(t, events, image) case None => None
                                            case Some(u) => Apply(u, e, image)
    decreases events
  {
    hide Apply;
    if events == [] {
      assert events + [e] == [e] && [e][1..] == [];
    } else {
      assert (events + [e])[0] == events[0] && (events + [e])[1..] == events[1..] + [e];
      if Apply(t, events[0], image).Some? {
        FoldAppend(Apply(t, events[0], image).value, events[1..], e, image);
      }
    }
  }

  lemma PropertyKeeps(t: Tree, name: seq<Byte>, value: seq<Byte>)
    requires ApplyProperty(t, name, value).Some?
    ensures var u := ApplyProperty(t, name, value).value;
            u.depth == t.depth && u.uart == t.uart && u.ram == t.ram && (t.depth != 1 ==> u.node == t.node)
  {
    hide FindConsole, Be64;
  }

  lemma {:induction false} FoldDepth(events: seq<Event>, image: Image)
    requires Fold(START, events, image).Some?
    ensures Fold(START, events, image).value.depth == Opens(events) - 1 && 0 <= Opens(events) <= MAX_DEPTH + 1
    ensures forall i :: 0 <= i <= |events| ==> 0 <= Opens(events[..i]) <= MAX_DEPTH + 1
    decreases events
  {
    hide Fold, ApplyProperty, Commit;
    if events == [] {
      assert Fold(START, [], image) == Some(START) by { FoldNone(START, image); }
    } else {
      var (before, e) := (events[..|events| - 1], events[|events| - 1]);
      assert events == before + [e];
      FoldAppend(START, before, e, image);
      FoldDepth(before, image);
      var t := Fold(START, before, image).value;
      if e.Property? { PropertyKeeps(t, e.name, e.value); }
      CommitKeeps(t, image);
      forall i | 0 <= i <= |events| ensures 0 <= Opens(events[..i]) <= MAX_DEPTH + 1 {
        if i < |events| { assert events[..i] == before[..i]; } else { assert events[..i] == events; }
      }
    }
  }

  lemma FoldNone(t: Tree, image: Image)
    ensures Fold(t, [], image) == Some(t)
  {
  }

  lemma CommitKeeps(t: Tree, image: Image)
    ensures Commit(t, image).Some? ==> Commit(t, image).value.depth == t.depth && Commit(t, image).value.node == t.node
  {
  }

  /** The direct children of the root closed so far, each with what its own properties say. */
  datatype Outline = Outline(depth: int, node: Node, closed: seq<Node>)

  function Noted(n: Node, name: seq<Byte>, value: seq<Byte>): Node
  {
    if name == COMPATIBLE && FindConsole(value, 0) == Present then n.(pl011 := true)
    else if name == DEVICE_TYPE && value == MEMORY then n.(memory := true)
    else if name == REG && |value| >= 16 then n.(reg := true, base := Be64(value, 0), size := Be64(value, 8))
    else n
  }

  function Outlined(events: seq<Event>): Outline
  {
    if events == [] then Outline(-1, EMPTY, [])
    else
      var o := Outlined(events[..|events| - 1]);
      match events[|events| - 1]
      case Begin(_) => Outline(o.depth + 1, if o.depth == 0 then EMPTY else o.node, o.closed)
      case End => Outline(o.depth - 1, o.node, if o.depth == 1 then o.closed + [o.node] else o.closed)
      case Property(name, value) => if o.depth == 1 then o.(node := Noted(o.node, name, value)) else o
      case _ => o
  }

  predicate Console(n: Node)
  {
    n.pl011 && n.reg
  }

  predicate Holds(n: Node, image: Image)
  {
    n.memory && n.reg && Covers(n, image) && n.base + n.size < TWO_64
  }

  /** No console among the nodes, or exactly one, usable and at the given address. */
  predicate ConsoleIs(nodes: seq<Node>, uart: nat)
  {
    if uart == 0 then forall i :: 0 <= i < |nodes| ==> !Console(nodes[i])
    else exists k :: 0 <= k < |nodes| && OnlyConsole(nodes, k) && Usable(nodes[k]) && nodes[k].base == uart
  }

  predicate OnlyConsole(nodes: seq<Node>, k: int)
  {
    0 <= k < |nodes| && Console(nodes[k]) && forall i :: 0 <= i < |nodes| && i != k ==> !Console(nodes[i])
  }

  predicate ImageHeld(nodes: seq<Node>, image: Image)
  {
    exists i :: 0 <= i < |nodes| && Holds(nodes[i], image)
  }

  lemma ConsoleAppend(nodes: seq<Node>, uart: nat, n: Node)
    requires ConsoleIs(nodes, uart) && !(Console(n) && (uart != 0 || !Usable(n)))
    ensures ConsoleIs(nodes + [n], if Console(n) then n.base else uart)
  {
    var after := nodes + [n];
    if Console(n) {
      assert after[|nodes|] == n && OnlyConsole(after, |nodes|);
    } else if uart != 0 {
      var k :| 0 <= k < |nodes| && OnlyConsole(nodes, k) && Usable(nodes[k]) && nodes[k].base == uart;
      assert after[k] == nodes[k] && OnlyConsole(after, k);
    }
  }

  lemma HeldAppend(nodes: seq<Node>, n: Node, image: Image)
    ensures ImageHeld(nodes + [n], image) <==> ImageHeld(nodes, image) || Holds(n, image)
  {
    var after := nodes + [n];
    assert after[|nodes|] == n && forall i :: 0 <= i < |nodes| ==> after[i] == nodes[i];
    if ImageHeld(nodes, image) {
      var i :| 0 <= i < |nodes| && Holds(nodes[i], image);
      assert Holds(after[i], image);
    }
  }

  lemma PropertyNotes(t: Tree, name: seq<Byte>, value: seq<Byte>)
    requires ApplyProperty(t, name, value).Some? && t.depth == 1
    ensures ApplyProperty(t, name, value).value.node == Noted(t.node, name, value)
  {
    hide FindConsole, Be64;
  }

  /** The state matches the outline. */
  ghost predicate Matches(t: Tree, o: Outline, image: Image)
  {
    t.depth == o.depth && t.node == o.node && ConsoleIs(o.closed, t.uart) && (t.ram <==> ImageHeld(o.closed, image))
  }

  lemma CommitMatches(t: Tree, o: Outline, image: Image)
    requires Matches(t, o, image) && t.depth == 1 && Commit(t, image).Some?
    ensures Matches(Commit(t, image).value, o.(closed := o.closed + [o.node]), image)
  {
    ConsoleAppend(o.closed, t.uart, o.node);
    HeldAppend(o.closed, o.node, image);
    hide ConsoleIs, ImageHeld, Usable;
  }

  lemma {:induction false} FoldMatches(events: seq<Event>, image: Image)
    requires Fold(START, events, image).Some?
    ensures Matches(Fold(START, events, image).value, Outlined(events), image)
    decreases events
  {
    hide Fold, ApplyProperty, Commit, ConsoleIs, ImageHeld, Noted;
    if events == [] {
      FoldNone(START, image);
      NothingYet(image);
    } else {
      var (before, e) := (events[..|events| - 1], events[|events| - 1]);
      assert events == before + [e];
      FoldAppend(START, before, e, image);
      FoldMatches(before, image);
      var (t, o) := (Fold(START, before, image).value, Outlined(before));
      if e.Property? {
        PropertyKeeps(t, e.name, e.value);
        if t.depth == 1 { PropertyNotes(t, e.name, e.value); }
      } else if e.End? && t.depth == 1 {
        CommitMatches(t, o, image);
      }
    }
  }

  lemma NothingYet(image: Image)
    ensures ConsoleIs([], 0) && !ImageHeld([], image)
  {
  }

  /** Success: the nodes are balanced, exactly one child of the root is a console, it is usable and at
      the address returned, and some memory child of the root holds the whole image. */
  lemma SurveyMeans(b: Blob, l: Layout, image: Image) returns (events: seq<Event>, end: nat)
    requires LayoutOk(b, l) && Survey(b, l, l.structure, START, image).Some?
    ensures Spelled(b, l, l.structure, events, end) && Next(b, l, end).Some? && Next(b, l, end).value.event.Finish?
    ensures Balanced(events)
    ensures ConsoleIs(Outlined(events).closed, Survey(b, l, l.structure, START, image).value)
            && Survey(b, l, l.structure, START, image).value != 0
    ensures ImageHeld(Outlined(events).closed, image)
  {
    hide Survey, Spelled, Next, Fold, ConsoleIs, ImageHeld, LayoutOk;
    events, end := SurveyTells(b, l, l.structure, START, image);
    FoldDepth(events, image);
    FoldMatches(events, image);
  }
}
