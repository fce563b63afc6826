/**
 That what is assumed of the codecs can be had: documents written as text and read
 back, and chunks named and encoded, for every source.
 */
module Codecs {
  import opened Arith
  import opened Store
  import opened Format
  import opened BackupFolder
  import opened Capture
  import opened CaptureDisk

  // ---- trees as bytes -----------------------------------------------------------------

  datatype Tree = Leaf(n: int) | Empty | Pair(first: Tree, second: Tree)

  function Unary(n: nat): Bytes {
    if n == 0 then [0] else [1] + Unary(n - 1)
  }

  function Text(t: Tree): (text: Bytes)
    ensures |text| > 0
  {
    match t
    case Empty => [0]
    case Leaf(n) => if n >= 0 then [1] + Unary(n) else [2] + Unary(-n)
    case Pair(a, b) => [3] + (Text(a) + Text(b))
  }

  lemma {:induction false} UnaryEndsItself(a: nat, b: nat, s: Bytes, t: Bytes)
    requires Unary(a) + s == Unary(b) + t
    ensures a == b && s == t
  {
    var left, right := Unary(a) + s, Unary(b) + t;
    assert left[0] == Unary(a)[0] && right[0] == Unary(b)[0];
    if a > 0 && b > 0 {
      assert left[1..] == Unary(a - 1) + s && right[1..] == Unary(b - 1) + t;
      UnaryEndsItself(a - 1, b - 1, s, t);
    } else {
      assert left[1..] == s && right[1..] == t;
    }
  }

  lemma TextWithRest(t: Tree, s: Bytes)
    ensures (Text(t) + s)[0] == Text(t)[0]
    ensures t.Leaf? ==> (Text(t) + s)[1..] == Unary(if t.n >= 0 then t.n else -t.n) + s
    ensures t.Empty? ==> (Text(t) + s)[1..] == s
    ensures t.Pair? ==> (Text(t) + s)[1..] == Text(t.first) + (Text(t.second) + s)
  {
    assert (Text(t) + s)[1..] == Text(t)[1..] + s;
  }

  /** No text of a tree is the beginning of another's. */
  lemma {:induction false} TextEndsItself(a: Tree, b: Tree, s: Bytes, t: Bytes)
    requires Text(a) + s == Text(b) + t
    ensures a == b && s == t
  {
    TextWithRest(a, s);
    TextWithRest(b, t);
    match a
    case Empty =>
    case Leaf(n) => UnaryEndsItself(if n >= 0 then n else -n, if b.n >= 0 then b.n else -b.n, s, t);
    case Pair(x, y) =>
      TextEndsItself(x, b.first, Text(y) + s, Text(b.second) + t);
      TextEndsItself(y, b.second, s, t);
  }

  lemma TextsDiffer(a: Tree, b: Tree)
    requires Text(a) == Text(b)
    ensures a == b
  {
    TextEndsItself(a, b, [], []);
  }

  // ---- documents as trees ------------------------------------------------------------------

  function List<T>(xs: seq<T>, tree: T -> Tree): Tree {
    if xs == [] then Empty else Pair(tree(xs[0]), List(xs[1..], tree))
  }

  ghost predicate Injective<T(!new)>(tree: T -> Tree) {
    forall x, y :: tree(x) == tree(y) ==> x == y
  }

  lemma {:induction false} ListsDiffer<T(!new)>(xs: seq<T>, ys: seq<T>, tree: T -> Tree)
    requires Injective(tree) && List(xs, tree) == List(ys, tree)
    ensures xs == ys
  {
    if xs != [] {
      ListsDiffer(xs[1..], ys[1..], tree);
      assert xs == [xs[0]] + xs[1..] && ys == [ys[0]] + ys[1..];
    }
  }

  function CharTree(c: char): Tree {
    Leaf(c as int)
  }

  function ByteTree(b: Byte): Tree {
    Leaf(b)
  }

  function StringTree(text: string): Tree {
    List(text, CharTree)
  }

  lemma StringsDiffer()
    ensures Injective(StringTree)
  {
    forall x, y | StringTree(x) == StringTree(y)
      ensures x == y
    {
      ListsDiffer(x, y, CharTree);
    }
  }

  function DigestTree(h: Digest): Tree {
    List(h, ByteTree)
  }

  lemma DigestsDiffer()
    ensures Injective(DigestTree)
  {
    forall x: Digest, y: Digest | DigestTree(x) == DigestTree(y)
      ensures x == y
    {
      ListsDiffer(x, y, ByteTree);
    }
  }

  function MaybeTree<T>(x: Option<T>, tree: T -> Tree): Tree {
    match x
    case None => Empty
    case Some(y) => Pair(tree(y), Empty)
  }

  function NumberTree(n: u64): Tree {
    Leaf(n)
  }

  function UsedTree(u: UsedBlockInfo): Tree {
    Leaf(u.extentCount)
  }

  function FormatTree(f: FormatHeader): Tree {
    var kind := if f.document.ManifestKind? then 0 else if f.document.LayoutKind? then 1 else 2;
    Pair(Pair(StringTree(f.magic), Leaf(kind)), Pair(Leaf(f.major), Pair(Leaf(f.minor), Leaf(f.minReaderMinor))))
  }

  function CompressionTree(c: CompressionSpec): Tree {
    match c
    case Zstd(level) => Leaf(level)
    case Uncompressed => Empty
  }

  function ParametersTree(p: Parameters): Tree {
    Pair(Pair(Leaf(p.digestBytes), CompressionTree(p.compression)),
         Pair(StringTree(p.root), Pair(Leaf(p.fanout), StringTree(p.createdUtc))))
  }

  function VolumeTree(v: VolumeEntry): Tree {
    Pair(Pair(StringTree(v.id), StringTree(v.partitionId)),
         Pair(MaybeTree(v.indexPath, StringTree),
              Pair(MaybeTree(v.totalBytes, NumberTree), MaybeTree(v.usedBytes, NumberTree))))
  }

  function SegmentTree(s: Segment): Tree {
    Pair(Leaf(s.offset), Pair(Leaf(s.length), Leaf(s.chunk)))
  }

  function KindTree(k: StreamKind): Tree {
    Leaf(if k.DiskHead? then 0 else if k.DiskTail? then 1 else 2)
  }

  function CaptureTree(c: CaptureMethod): Tree {
    Leaf(if c.VssUsedBlocks? then 0 else if c.VssRaw? then 1 else if c.RawFull? then 2 else 3)
  }

  function StreamTree(s: Stream): Tree {
    Pair(Pair(Pair(StringTree(s.id), KindTree(s.kind)),
              Pair(StringTree(s.diskId), MaybeTree(s.partitionId, StringTree))),
         Pair(Pair(Leaf(s.targetOffset), Pair(Leaf(s.length), CaptureTree(s.capture))),
              Pair(List(s.segments, SegmentTree),
                   Pair(MaybeTree(s.usedBlocks, UsedTree), Leaf(if s.fellBack then 1 else 0)))))
  }

  function ChunkTree(c: ChunkEntry): Tree {
    Pair(DigestTree(c.hash), Pair(Leaf(c.uncompressedSize), Leaf(c.compressedSize)))
  }

  function StatsTree(s: Stats): Tree {
    Pair(Pair(Leaf(s.capturedBytes), Leaf(s.storedBytes)),
         Pair(Leaf(s.uniqueChunks), Pair(Leaf(s.totalSegments), Leaf(s.deduplicatedSegments))))
  }

  function ManifestTree(m: Manifest): Tree {
    Pair(Pair(Pair(FormatTree(m.format), ParametersTree(m.parameters)), Pair(StringTree(m.uuid), Leaf(m.chunkSize))),
         Pair(Pair(List(m.volumes, VolumeTree), List(m.streams, StreamTree)),
              Pair(List(m.chunks, ChunkTree), Pair(Leaf(m.requiredRestoreBytes), StatsTree(m.stats)))))
  }

  function PartitionTree(p: PartitionEntry): Tree {
    Pair(Pair(StringTree(p.id), Leaf(p.number)),
         Pair(Pair(StringTree(p.typeGuid), StringTree(p.uniqueGuid)), Pair(Leaf(p.startingOffset), Leaf(p.length))))
  }

  function DiskTree(d: DiskEntry): Tree {
    Pair(Pair(Pair(StringTree(d.id), StringTree(d.guid)), Pair(Leaf(d.sizeBytes), Leaf(d.logicalSectorSize))),
         Pair(Leaf(d.physicalSectorSize),
              Pair(Leaf(if d.isGpt then 1 else 0), List(d.partitions, PartitionTree))))
  }

  function LayoutTree(layout: DiskLayout): Tree {
    Pair(FormatTree(layout.format), Pair(StringTree(layout.backupUuid), List(layout.disks, DiskTree)))
  }

  function VerificationTree(v: Verification): Tree {
    Pair(Leaf(if v.result.Passed? then 0 else if v.result.NotPassed? then 1 else 2),
         Pair(Leaf(v.chunksVerified), Leaf(v.bytesVerified)))
  }

  function RecordTree(d: DocumentDigest): Tree {
    Pair(StringTree(d.path), Pair(DigestTree(d.hash), Leaf(d.bytes)))
  }

  function CompletionTree(c: Completion): Tree {
    Pair(Pair(Pair(FormatTree(c.format), StringTree(c.backupUuid)),
              Pair(Leaf(if c.state.Complete? then 1 else 0), StringTree(c.completedUtc))),
         Pair(VerificationTree(c.verification), Pair(List(c.documents, RecordTree), Leaf(c.requiredRestoreBytes))))
  }

  function DocumentTree(d: Document): Tree {
    match d
    case ManifestDocument(m) => Pair(Leaf(0), ManifestTree(m))
    case LayoutDocument(layout) => Pair(Leaf(1), LayoutTree(layout))
    case CompletionDocument(c) => Pair(Leaf(2), CompletionTree(c))
  }

  lemma MaybesDiffer<T(!new)>(x: Option<T>, y: Option<T>, tree: T -> Tree)
    requires Injective(tree) && MaybeTree(x, tree) == MaybeTree(y, tree)
    ensures x == y
  {
  }

  lemma FormatsDiffer()
    ensures Injective(FormatTree)
  {
    StringsDiffer();
  }

  lemma ParametersDiffer()
    ensures Injective(ParametersTree)
  {
    StringsDiffer();
  }

  lemma VolumesDiffer()
    ensures Injective(VolumeTree)
  {
    StringsDiffer();
    forall x, y | VolumeTree(x) == VolumeTree(y)
      ensures x == y
    {
      MaybesDiffer(x.indexPath, y.indexPath, StringTree);
      MaybesDiffer(x.totalBytes, y.totalBytes, NumberTree);
      MaybesDiffer(x.usedBytes, y.usedBytes, NumberTree);
    }
  }

  lemma StreamsDiffer()
    ensures Injective(StreamTree)
  {
    StringsDiffer();
    forall x, y | StreamTree(x) == StreamTree(y)
      ensures x == y
    {
      MaybesDiffer(x.partitionId, y.partitionId, StringTree);
      ListsDiffer(x.segments, y.segments, SegmentTree);
      MaybesDiffer(x.usedBlocks, y.usedBlocks, UsedTree);
    }
  }

  lemma ChunksDiffer()
    ensures Injective(ChunkTree)
  {
    DigestsDiffer();
  }

  lemma RecordsDiffer()
    ensures Injective(RecordTree)
  {
    StringsDiffer();
    DigestsDiffer();
  }

  lemma ManifestsDiffer(x: Manifest, y: Manifest)
    requires ManifestTree(x) == ManifestTree(y)
    ensures x == y
  {
    FormatsDiffer();
    ParametersDiffer();
    StringsDiffer();
    ChunksDiffer();
    VolumesDiffer();
    StreamsDiffer();
    ListsDiffer(x.volumes, y.volumes, VolumeTree);
    ListsDiffer(x.streams, y.streams, StreamTree);
    ListsDiffer(x.chunks, y.chunks, ChunkTree);
  }

  lemma DisksDiffer()
    ensures Injective(DiskTree)
  {
    StringsDiffer();
    forall x, y | DiskTree(x) == DiskTree(y)
      ensures x == y
    {
      ListsDiffer(x.partitions, y.partitions, PartitionTree);
    }
  }

  lemma LayoutsDiffer(x: DiskLayout, y: DiskLayout)
    requires LayoutTree(x) == LayoutTree(y)
    ensures x == y
  {
    FormatsDiffer();
    StringsDiffer();
    DisksDiffer();
    ListsDiffer(x.disks, y.disks, DiskTree);
  }

  lemma CompletionsDiffer(x: Completion, y: Completion)
    requires CompletionTree(x) == CompletionTree(y)
    ensures x == y
  {
    FormatsDiffer();
    StringsDiffer();
    RecordsDiffer();
    assert x.verification == y.verification;
    ListsDiffer(x.documents, y.documents, RecordTree);
  }

  /** No two documents have the same text. */
  lemma DocumentsDiffer(d: Document, e: Document)
    requires Text(DocumentTree(d)) == Text(DocumentTree(e))
    ensures d == e
  {
    TextsDiffer(DocumentTree(d), DocumentTree(e));
    match d
    case ManifestDocument(m) => ManifestsDiffer(m, e.manifest);
    case LayoutDocument(layout) => LayoutsDiffer(layout, e.layout);
    case CompletionDocument(c) => CompletionsDiffer(c, e.completion);
  }

  // ---- a lawful codec for documents -----------------------------------------------------------

  function IndexOfDocument(ds: seq<Document>, d: Document): (i: nat)
    ensures i <= |ds| && (i < |ds| ==> ds[i] == d) && (d in ds ==> i < |ds|)
  {
    if ds == [] || ds[0] == d then 0 else IndexOfDocument(ds[1..], d) + 1
  }

  /** The documents listed get a text of one byte, all others one of their tree. */
  function TextOf(ds: seq<Document>, d: Document): (text: Bytes)
    requires |ds| < 255
    ensures |text| > 0
  {
    var i := IndexOfDocument(ds, d);
    if i < |ds| then [i] else [255] + Text(DocumentTree(d))
  }

  lemma TextOfDiffers(ds: seq<Document>, d: Document, e: Document)
    requires |ds| < 255 && TextOf(ds, d) == TextOf(ds, e)
    ensures d == e
  {
    assert TextOf(ds, d)[1..] == TextOf(ds, e)[1..] && TextOf(ds, d)[0] == TextOf(ds, e)[0];
    if IndexOfDocument(ds, d) == |ds| {
      assert TextOf(ds, d)[1..] == Text(DocumentTree(d)) && TextOf(ds, e)[1..] == Text(DocumentTree(e));
      DocumentsDiffer(d, e);
    }
  }

  ghost function Read(ds: seq<Document>, text: Bytes): Option<Document>
    requires |ds| < 255
  {
    if d: Document :| TextOf(ds, d) == text then Some(d) else None
  }

  /** There is a lawful way of writing documents, in which any few of them can be short. */
  lemma LawfulDocuments(ds: seq<Document>) returns (codec: DocumentCodec)
    requires |ds| < 255
    ensures DocumentsLawful(codec) && forall d :: d in ds ==> |codec.encode(d)| == 1
  {
    codec := DocumentCodec(d => TextOf(ds, d), text => Read(ds, text), _ => seq(DIGEST_BYTES, _ => 0));
    forall d
      ensures codec.decode(codec.encode(d)) == Some(d)
    {
      TextOfDiffers(ds, d, Read(ds, TextOf(ds, d)).value);
    }
  }

  // ---- a lawful codec for chunks ----------------------------------------------------------------

  function Power(k: nat): nat {
    if k == 0 then 1 else 256 * Power(k - 1)
  }

  /** A number in `k` bytes, lowest first. */
  function Digits(n: nat, k: nat): (digits: Bytes)
    ensures |digits| == k
  {
    if k == 0 then [] else [n % 256] + Digits(n / 256, k - 1)
  }

  lemma {:induction false} DigitsDiffer(m: nat, n: nat, k: nat)
    requires m < Power(k) && n < Power(k) && Digits(m, k) == Digits(n, k)
    ensures m == n
  {
    if k > 0 {
      assert Digits(m, k)[0] == m % 256 && Digits(n, k)[0] == n % 256;
      assert Digits(m, k)[1..] == Digits(m / 256, k - 1) && Digits(n, k)[1..] == Digits(n / 256, k - 1);
      DigitsDiffer(m / 256, n / 256, k - 1);
    }
  }

  lemma PowerOf8()
    ensures Power(8) == U64_MAX + 1
  {
    assert Power(4) == 0x1_0000_0000;
  }

  /** The disk, or a snapshot. */
  function SourceAt(sources: Sources, which: nat): Bytes {
    if which < |sources.snapshots| && sources.snapshots[which].Some? then sources.snapshots[which].value
    else sources.disk
  }

  /** The bytes `[from, to)` of that source. */
  predicate IsSlice(sources: Sources, which: nat, from: nat, to: nat, b: Bytes) {
    which <= |sources.snapshots| && from <= to <= |SourceAt(sources, which)| && b == SourceAt(sources, which)[from..to]
  }

  function NameOfSlice(which: nat, from: nat, to: nat): Digest {
    Digits(which, 8) + Digits(from, 8) + Digits(to, 8) + Digits(0, 8)
  }

  lemma PartsOfName(w: nat, i: nat, j: nat)
    ensures NameOfSlice(w, i, j)[..8] == Digits(w, 8)
    ensures NameOfSlice(w, i, j)[8..16] == Digits(i, 8)
    ensures NameOfSlice(w, i, j)[16..24] == Digits(j, 8)
  {
    PartsOfFour(Digits(w, 8), Digits(i, 8), Digits(j, 8), Digits(0, 8));
  }

  lemma PartsOfFour(a: Bytes, b: Bytes, c: Bytes, d: Bytes)
    requires |a| == |b| == |c| == |d| == 8
    ensures (a + b + c + d)[..8] == a && (a + b + c + d)[8..16] == b && (a + b + c + d)[16..24] == c
  {
  }

  lemma NamesOfSlicesDiffer(w: nat, i: nat, j: nat, w': nat, i': nat, j': nat)
    requires w <= U64_MAX && i <= U64_MAX && j <= U64_MAX && w' <= U64_MAX && i' <= U64_MAX && j' <= U64_MAX
    requires NameOfSlice(w, i, j) == NameOfSlice(w', i', j')
    ensures w == w' && i == i' && j == j'
  {
    PartsOfName(w, i, j);
    PartsOfName(w', i', j');
    PowerOf8();
    DigitsDiffer(w, w', 8);
    DigitsDiffer(i, i', 8);
    DigitsDiffer(j, j', 8);
  }

  /** Names a slice by a place it comes from. */
  ghost function NameOf(sources: Sources, b: Bytes): Digest {
    if w: nat, i: nat, j: nat :| IsSlice(sources, w, i, j, b) then NameOfSlice(w, i, j)
    else seq(DIGEST_BYTES, _ => 255)
  }

  ghost predicate IsAnySlice(sources: Sources, b: Bytes) {
    exists w: nat, i: nat, j: nat :: IsSlice(sources, w, i, j, b)
  }

  ghost function Slices(sources: Sources): iset<Bytes> {
    iset b | IsAnySlice(sources, b)
  }

  /** All lengths are within 64 bits, and so is the number of snapshots. */
  predicate LengthsFit(sources: Sources) {
    && |sources.disk| <= U64_MAX && |sources.snapshots| <= U64_MAX
    && forall k :: 0 <= k < |sources.snapshots| && sources.snapshots[k].Some? ==>
         |sources.snapshots[k].value| <= U64_MAX
  }

  lemma NamesOfSlicesTell(sources: Sources, a: Bytes, b: Bytes)
    requires LengthsFit(sources) && a in Slices(sources) && b in Slices(sources)
    requires NameOf(sources, a) == NameOf(sources, b)
    ensures a == b
  {
    assert IsAnySlice(sources, a) && IsAnySlice(sources, b);
    var w: nat, i: nat, j: nat :| IsSlice(sources, w, i, j, a) && NameOf(sources, a) == NameOfSlice(w, i, j);
    var w': nat, i': nat, j': nat :| IsSlice(sources, w', i', j', b) && NameOf(sources, b) == NameOfSlice(w', i', j');
    NamesOfSlicesDiffer(w, i, j, w', i', j');
  }

  lemma SlicesOfSource(sources: Sources, which: nat)
    requires which <= |sources.snapshots|
    ensures SlicesKnown(SourceAt(sources, which), Slices(sources))
  {
    var b := SourceAt(sources, which);
    forall i, j | 0 <= i <= j <= |b|
      ensures b[i..j] in Slices(sources)
    {
      assert IsSlice(sources, which, i, j, b[i..j]);
    }
  }

  lemma SlicesAreKnown(sources: Sources)
    ensures SourcesKnown(sources, Slices(sources))
  {
    SlicesOfSource(sources, |sources.snapshots|);
    forall k | 0 <= k < |sources.snapshots| && sources.snapshots[k].Some?
      ensures SlicesKnown(sources.snapshots[k].value, Slices(sources))
    {
      SlicesOfSource(sources, k);
    }
  }

  /** For every source there is a lawful way of naming and encoding what is read from it. */
  lemma LawfulChunks(sources: Sources) returns (codec: Codec, known: iset<Bytes>)
    requires LengthsFit(sources)
    ensures Lawful(codec, known) && SourcesKnown(sources, known)
    ensures forall d, n :: |codec.encode(d, n)| == |d| + 1
  {
    known := Slices(sources);
    codec := Codec(b => NameOf(sources, b), (d, n) => [0] + d, s => if |s| > 0 then Some(s[1..]) else None);
    SlicesAreKnown(sources);
    forall a, b | a in known && b in known && codec.name(a) == codec.name(b)
      ensures a == b
    {
      NamesOfSlicesTell(sources, a, b);
    }
  }
}
