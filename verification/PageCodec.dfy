/** The paged image of a snapshot: a header page and a chain of checksummed data pages. */
module PageCodec {
  import opened Options
  import opened Bytes
  import opened Checksum
  import opened Snapshots
  import opened PayloadCodec

  const MAGIC: seq<Byte> := [0x44, 0x49, 0x53, 0x50, 0x44, 0x42, 0x1a, 0x0a]
  const LEGACY_VERSION: nat := 1
  const PAGE_VERSION: nat := 2
  const UNIQUE_VERSION: nat := 3
  const INDEX_VERSION: nat := 4
  const VERSION: nat := 5
  const LEGACY_HEADER_SIZE: nat := 32
  const PAGE_HEADER_SIZE: nat := 32
  const PAGE_PAYLOAD_SIZE: nat := 4064
  const MAX_PAGES: nat := 16384

  // ----- writing -----

  /** Number of data pages: as many as the payload fills, and at least one. */
  function DataPages(length: nat): (n: nat)
    ensures n >= 1
    ensures (n - 1) * PAGE_PAYLOAD_SIZE <= length <= n * PAGE_PAYLOAD_SIZE
  {
    Max((length + PAGE_PAYLOAD_SIZE - 1) / PAGE_PAYLOAD_SIZE, 1)
  }

  /** Bytes of the payload that data page `k` carries. */
  function Used(length: nat, k: nat): (n: nat)
    ensures n <= PAGE_PAYLOAD_SIZE
    ensures k * PAGE_PAYLOAD_SIZE <= length ==> k * PAGE_PAYLOAD_SIZE + n <= length
  {
    if length <= k * PAGE_PAYLOAD_SIZE then 0 else Min(length - k * PAGE_PAYLOAD_SIZE, PAGE_PAYLOAD_SIZE)
  }

  function Chunk(payload: seq<Byte>, k: nat): (c: seq<Byte>)
    requires k * PAGE_PAYLOAD_SIZE <= |payload|
    ensures |c| == Used(|payload|, k)
  {
    payload[k * PAGE_PAYLOAD_SIZE..k * PAGE_PAYLOAD_SIZE + Used(|payload|, k)]
  }

  function HeaderPrefix(payload: seq<Byte>, generation: nat, version: nat, pages: nat): (h: seq<Byte>)
    ensures |h| == 56
  {
    MAGIC + (U32(version) + (U32(PAGE_SIZE) + (U64(generation) +
      (U64(|payload|) + (U64(pages) + (U64(Fnv1a(payload)) + U64(0)))))))
  }

  function HeaderPage(payload: seq<Byte>, generation: nat, version: nat, pages: nat): (h: seq<Byte>)
    ensures |h| == PAGE_SIZE
  {
    var prefix := HeaderPrefix(payload, generation, version, pages);
    prefix + (U64(Fnv1a(prefix)) + Zeros(PAGE_SIZE - 64))
  }

  function PageHeader(number: nat, next: nat, data: seq<Byte>): (h: seq<Byte>)
    ensures |h| == PAGE_HEADER_SIZE
  {
    [1, 0, 0, 0] + (U32(number) + (U32(|data|) + (U32(next) + (U64(Fnv1a(data)) + Zeros(8)))))
  }

  function PageOf(number: nat, next: nat, data: seq<Byte>): (p: seq<Byte>)
    requires |data| <= PAGE_PAYLOAD_SIZE
    ensures |p| == PAGE_SIZE
  {
    PageHeader(number, next, data) + (data + Zeros(PAGE_PAYLOAD_SIZE - |data|))
  }

  /** Data page `k` of `n`, numbered from one, linked to its successor. */
  function DataPage(payload: seq<Byte>, k: nat, n: nat): (p: seq<Byte>)
    requires k * PAGE_PAYLOAD_SIZE <= |payload|
    ensures |p| == PAGE_SIZE
  {
    PageOf(k + 1, if k + 1 == n then 0 else k + 2, Chunk(payload, k))
  }

  function DataPagesFrom(payload: seq<Byte>, k: nat, n: nat): (b: seq<Byte>)
    requires k <= n && (n - 1) * PAGE_PAYLOAD_SIZE <= |payload|
    ensures |b| == (n - k) * PAGE_SIZE
    decreases n - k
  {
    if k == n then [] else DataPage(payload, k, n) + DataPagesFrom(payload, k + 1, n)
  }

  function Image(payload: seq<Byte>, generation: nat, version: nat): (b: seq<Byte>)
    ensures |b| == (DataPages(|payload|) + 1) * PAGE_SIZE
  {
    var n := DataPages(|payload|);
    HeaderPage(payload, generation, version, n + 1) + DataPagesFrom(payload, 0, n)
  }

  function EncodePages(s: Snapshot, generation: nat, version: nat, composite: bool): Option<seq<Byte>>
  {
    match EncodePayload(s, composite)
    case None => None
    case Some(payload) =>
      if DataPages(|payload|) + 1 > MAX_PAGES then None else Some(Image(payload, generation, version))
  }

  // ----- reading -----

  function Page(b: seq<Byte>, k: nat): (p: seq<Byte>)
    requires (k + 1) * PAGE_SIZE <= |b|
    ensures |p| == PAGE_SIZE
  {
    b[k * PAGE_SIZE..(k + 1) * PAGE_SIZE]
  }

  predicate HeaderOk(h: seq<Byte>)
    requires |h| == PAGE_SIZE
  {
    && ReadU32(h, 12) == PAGE_SIZE
    && ReadU64(h, 48) == 0
    && Fnv1a(h[..56]) == ReadU64(h, 56)
    && AllZero(h[64..])
  }

  predicate DataPageOk(p: seq<Byte>, number: nat, used: nat, last: bool)
    requires |p| == PAGE_SIZE && used <= PAGE_PAYLOAD_SIZE
  {
    && p[0] == 1 && p[1] == 0 && p[2] == 0 && p[3] == 0
    && ReadU32(p, 4) == number
    && ReadU32(p, 8) == used
    && ReadU32(p, 12) == (if last then 0 else number + 1)
    && ReadU64(p, 24) == 0
    && Fnv1a(p[PAGE_HEADER_SIZE..PAGE_HEADER_SIZE + used]) == ReadU64(p, 16)
    && AllZero(p[PAGE_HEADER_SIZE + used..])
  }

  /** Data pages `k`, `k + 1`, ... of the image are all intact. */
  predicate PagesOk(b: seq<Byte>, length: nat, k: nat, n: nat)
    requires k <= n && |b| == (n + 1) * PAGE_SIZE
  {
    forall j :: k <= j < n ==> DataPageOk(Page(b, j + 1), j + 1, Used(length, j), j + 1 == n)
  }

  function Carried(b: seq<Byte>, length: nat, k: nat): (c: seq<Byte>)
    requires (k + 2) * PAGE_SIZE <= |b|
    ensures |c| == Used(length, k)
  {
    Page(b, k + 1)[PAGE_HEADER_SIZE..PAGE_HEADER_SIZE + Used(length, k)]
  }

  function Collected(b: seq<Byte>, length: nat, k: nat, n: nat): seq<Byte>
    requires k <= n && |b| == (n + 1) * PAGE_SIZE
    decreases n - k
  {
    if k == n then [] else Carried(b, length, k) + Collected(b, length, k + 1, n)
  }

  function DecodePages(b: seq<Byte>, allowed: Byte, composite: bool): Option<Snapshot>
  {
    if |b| < PAGE_SIZE || !HeaderOk(b[..PAGE_SIZE]) then None
    else
      var length, pages := ReadU64(b, 24), ReadU64(b, 32);
      if !(2 <= pages <= MAX_PAGES) || |b| != pages * PAGE_SIZE then None
      else if length > (pages - 1) * PAGE_PAYLOAD_SIZE then None
      else if !PagesOk(b, length, 0, pages - 1) then None
      else
        var payload := Collected(b, length, 0, pages - 1);
        if Fnv1a(payload) != ReadU64(b, 40) then None else DecodePayload(payload, allowed, composite)
  }

  function DecodeLegacy(b: seq<Byte>): Option<Snapshot>
  {
    if |b| < LEGACY_HEADER_SIZE || ReadU32(b, 12) != 0 then None
    else if ReadU64(b, 16) != |b| - LEGACY_HEADER_SIZE then None
    else if Fnv1a(b[LEGACY_HEADER_SIZE..]) != ReadU64(b, 24) then None
    else DecodePayload(b[LEGACY_HEADER_SIZE..], 3, false)
  }

  function DecodeVersion(b: seq<Byte>, version: nat): Option<Snapshot>
  {
    if version == LEGACY_VERSION then DecodeLegacy(b)
    else if version == PAGE_VERSION then DecodePages(b, 3, false)
    else if version == UNIQUE_VERSION then DecodePages(b, 7, false)
    else if version == INDEX_VERSION then DecodePages(b, 15, false)
    else if version == VERSION then DecodePages(b, 15, true)
    else None
  }

  function Decode(b: seq<Byte>): Option<Snapshot>
  {
    if |b| < 12 || |b| > MAX_FILE_BYTES || b[..8] != MAGIC then None
    else DecodeVersion(b, ReadU32(b, 8))
  }

  // ----- reading back what was written -----

  /** The numeric fields of a header page. */
  lemma HeaderFields(payload: seq<Byte>, generation: nat, version: nat, pages: nat)
    requires generation < U64_LIMIT && version < U32_LIMIT && pages < U64_LIMIT && |payload| < U64_LIMIT
    ensures var h := HeaderPage(payload, generation, version, pages);
            && h[..8] == MAGIC
            && ReadU32(h, 8) == version
            && ReadU64(h, 16) == generation
            && ReadU64(h, 24) == |payload|
            && ReadU64(h, 32) == pages
            && ReadU64(h, 40) == Fnv1a(payload)
            && HeaderOk(h)
  {
    hide U32, U64, Fnv1a, FromLe;
    var h := HeaderPage(payload, generation, version, pages);
    var prefix := HeaderPrefix(payload, generation, version, pages);
    assert h[8..12] == U32(version) && h[12..16] == U32(PAGE_SIZE);
    assert h[16..24] == U64(generation) && h[24..32] == U64(|payload|);
    assert h[32..40] == U64(pages) && h[40..48] == U64(Fnv1a(payload)) && h[48..56] == U64(0);
    assert h[..56] == prefix && h[56..64] == U64(Fnv1a(prefix));
    assert h[64..] == Zeros(PAGE_SIZE - 64);
    U32RoundTrip(version);
    U32RoundTrip(PAGE_SIZE);
    U64RoundTrip(generation);
    U64RoundTrip(|payload|);
    U64RoundTrip(pages);
    U64RoundTrip(Fnv1a(payload));
    U64RoundTrip(0);
    U64RoundTrip(Fnv1a(prefix));
  }

  lemma PageOfIsOk(number: nat, next: nat, data: seq<Byte>, last: bool)
    requires |data| <= PAGE_PAYLOAD_SIZE && number + 1 < U32_LIMIT
    requires next == if last then 0 else number + 1
    ensures DataPageOk(PageOf(number, next, data), number, |data|, last)
    ensures PageOf(number, next, data)[PAGE_HEADER_SIZE..PAGE_HEADER_SIZE + |data|] == data
  {
    hide U32, U64, Fnv1a, FromLe;
    var p := PageOf(number, next, data);
    var h := PageHeader(number, next, data);
    assert h[4..8] == U32(number) && h[8..12] == U32(|data|) && h[12..16] == U32(next);
    assert h[16..24] == U64(Fnv1a(data)) && h[24..32] == Zeros(8);
    assert forall i :: 0 <= i < PAGE_HEADER_SIZE ==> p[i] == h[i];
    assert p[4..8] == h[4..8] && p[8..12] == h[8..12] && p[12..16] == h[12..16];
    assert p[16..24] == h[16..24] && p[24..32] == h[24..32];
    assert p[PAGE_HEADER_SIZE..PAGE_HEADER_SIZE + |data|] == data;
    assert p[PAGE_HEADER_SIZE + |data|..] == Zeros(PAGE_PAYLOAD_SIZE - |data|);
    U32RoundTrip(number);
    U32RoundTrip(|data|);
    U32RoundTrip(next);
    U64RoundTrip(Fnv1a(data));
    ZerosIsZero(8);
  }

  lemma {:induction false} ZerosIsZero(k: nat)
    ensures FromLe(Zeros(k)) == 0
  {
    if k > 0 {
      ZerosIsZero(k - 1);
      assert Zeros(k)[1..] == Zeros(k - 1);
    }
  }

  lemma {:induction false} DataPageAt(payload: seq<Byte>, k: nat, n: nat, j: nat)
    requires k <= j < n && (n - 1) * PAGE_PAYLOAD_SIZE <= |payload|
    ensures DataPagesFrom(payload, k, n)[(j - k) * PAGE_SIZE..(j - k + 1) * PAGE_SIZE] == DataPage(payload, j, n)
    decreases n - k
  {
    hide DataPage;
    if j > k {
      DataPageAt(payload, k + 1, n, j);
      var first, tail := DataPage(payload, k, n), DataPagesFrom(payload, k + 1, n);
      assert (first + tail)[(j - k) * PAGE_SIZE..(j - k + 1) * PAGE_SIZE]
          == tail[(j - k - 1) * PAGE_SIZE..(j - k) * PAGE_SIZE];
    }
  }

  lemma ImagePage(payload: seq<Byte>, generation: nat, version: nat, j: nat)
    requires j < DataPages(|payload|)
    ensures Page(Image(payload, generation, version), j + 1) == DataPage(payload, j, DataPages(|payload|))
  {
    hide HeaderPage, DataPage, DataPagesFrom;
    var n := DataPages(|payload|);
    var h := HeaderPage(payload, generation, version, n + 1);
    var d := DataPagesFrom(payload, 0, n);
    DataPageAt(payload, 0, n, j);
    assert (h + d)[(j + 1) * PAGE_SIZE..(j + 2) * PAGE_SIZE] == d[j * PAGE_SIZE..(j + 1) * PAGE_SIZE];
  }

  lemma ImagePagesOk(payload: seq<Byte>, generation: nat, version: nat)
    requires DataPages(|payload|) + 1 <= MAX_PAGES
    ensures PagesOk(Image(payload, generation, version), |payload|, 0, DataPages(|payload|))
    ensures forall j :: 0 <= j < DataPages(|payload|) ==>
              Carried(Image(payload, generation, version), |payload|, j) == Chunk(payload, j)
  {
    hide PageOf, DataPageOk, Image;
    var n := DataPages(|payload|);
    var b := Image(payload, generation, version);
    forall j | 0 <= j < n
      ensures DataPageOk(Page(b, j + 1), j + 1, Used(|payload|, j), j + 1 == n)
      ensures Carried(b, |payload|, j) == Chunk(payload, j)
    {
      ImagePage(payload, generation, version, j);
      PageOfIsOk(j + 1, if j + 1 == n then 0 else j + 2, Chunk(payload, j), j + 1 == n);
    }
  }

  lemma {:induction false} ChunksCollect(b: seq<Byte>, payload: seq<Byte>, k: nat, n: nat)
    requires n == DataPages(|payload|) && k <= n && |b| == (n + 1) * PAGE_SIZE
    requires forall j :: 0 <= j < n ==> Carried(b, |payload|, j) == Chunk(payload, j)
    ensures Collected(b, |payload|, k, n) == payload[Min(k * PAGE_PAYLOAD_SIZE, |payload|)..]
    decreases n - k
  {
    hide Carried, DataPages;
    if k < n {
      ChunksCollect(b, payload, k + 1, n);
      assert k * PAGE_PAYLOAD_SIZE <= |payload|;
      assert k * PAGE_PAYLOAD_SIZE + Used(|payload|, k) == Min((k + 1) * PAGE_PAYLOAD_SIZE, |payload|);
    }
  }

  /** Reading the pages of an image recovers exactly the payload they were cut from. */
  lemma DecodePagesOfImage(payload: seq<Byte>, generation: nat, version: nat, allowed: Byte, composite: bool)
    requires DataPages(|payload|) + 1 <= MAX_PAGES && generation < U64_LIMIT && version < U32_LIMIT
    ensures DecodePages(Image(payload, generation, version), allowed, composite)
            == DecodePayload(payload, allowed, composite)
  {
    hide HeaderOk, PagesOk, Collected, HeaderPage, DecodePayload, Fnv1a, DataPagesFrom;
    var n := DataPages(|payload|);
    var b := Image(payload, generation, version);
    var h := HeaderPage(payload, generation, version, n + 1);
    HeaderFields(payload, generation, version, n + 1);
    ImageHeader(payload, generation, version);
    ImagePagesOk(payload, generation, version);
    ChunksCollect(b, payload, 0, n);
    assert payload[0..] == payload;
  }

  lemma ImageHeader(payload: seq<Byte>, generation: nat, version: nat)
    ensures var h := HeaderPage(payload, generation, version, DataPages(|payload|) + 1);
            var b := Image(payload, generation, version);
            && b[..PAGE_SIZE] == h && b[..8] == h[..8]
            && ReadU32(b, 8) == ReadU32(h, 8) && ReadU64(b, 16) == ReadU64(h, 16)
            && ReadU64(b, 24) == ReadU64(h, 24) && ReadU64(b, 32) == ReadU64(h, 32)
            && ReadU64(b, 40) == ReadU64(h, 40)
  {
    hide HeaderPage, DataPagesFrom, FromLe, DataPages;
    var h := HeaderPage(payload, generation, version, DataPages(|payload|) + 1);
    var b := Image(payload, generation, version);
    assert b[..PAGE_SIZE] == h;
    assert b[..8] == h[..8] && b[8..12] == h[8..12] && b[16..24] == h[16..24];
    assert b[24..32] == h[24..32] && b[32..40] == h[32..40] && b[40..48] == h[40..48];
  }
}
