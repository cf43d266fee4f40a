/**
 The format of page files (photondb/src/page_store/page_file): what the builder writes, what the reader
 of the metadata gets back, and the buffered writer between the builder and the file.
 */
module PageFile {
  import opened Options
  import opened Data
  import opened SortedPage
  import PageGroup

  // ----- Words

  function PutWords(ws: seq<nat>): (b: Blob)
    ensures |b| == 8 * |ws|
  {
    if ws == [] then [] else PutInt(ws[0], 8) + PutWords(ws[1..])
  }

  function GetWords(b: Blob): Option<seq<nat>> {
    if b == [] then Some([])
    else if |b| < 8 then None
    else
      match GetWords(b[8..])
      case None => None
      case Some(ws) => Some([GetInt(b[..8])] + ws)
  }

  ghost predicate Fit(ws: seq<nat>) {
    forall i :: 0 <= i < |ws| ==> ws[i] < U64
  }

  lemma {:induction false} WordsRoundTrip(ws: seq<nat>)
    requires Fit(ws)
    ensures GetWords(PutWords(ws)) == Some(ws)
  {
    if ws != [] {
      WordsRoundTrip(ws[1..]);
      U64RoundTrip(ws[0]);
      var b := PutWords(ws);
      assert b[..8] == PutInt(ws[0], 8) && b[8..] == PutWords(ws[1..]);
      assert ws == [ws[0]] + ws[1..];
    }
  }

  // ----- What is written

  /** A page as it is added: `stored` are its bytes in the file, compressed and with the checksum. */
  datatype PageRec = PageRec(addr: nat, id: nat, meta: nat, next: nat, stored: Blob)

  datatype GroupRec = GroupRec(id: nat, pages: seq<PageRec>)

  datatype Handle = Handle(offset: nat, length: nat)

  const MAGIC: nat := 0x17_9394

  function DataBlocks(ps: seq<PageRec>): Blob {
    if ps == [] then [] else ps[0].stored + DataBlocks(ps[1..])
  }

  function TableWords(ps: seq<PageRec>): seq<nat> {
    if ps == [] then [] else [ps[0].addr, ps[0].id] + TableWords(ps[1..])
  }

  function IndexWords(ps: seq<PageRec>, at: nat): seq<nat> {
    if ps == [] then [] else [ps[0].addr, at, ps[0].meta, ps[0].next] + IndexWords(ps[1..], at + |ps[0].stored|)
  }

  /** The four parts of a page group: data blocks, page table, data index and meta index. */
  datatype Section = Section(id: nat, data: Blob, table: Blob, index: Blob, meta: Blob)

  function SectionOf(g: GroupRec, base: nat): Section {
    Section(g.id, DataBlocks(g.pages), PutWords(TableWords(g.pages)), PutWords(IndexWords(g.pages, base)),
            PutWords([base + |DataBlocks(g.pages)|]))
  }

  function SectionBytes(x: Section): Blob {
    x.data + x.table + x.index + x.meta
  }

  function End(x: Section, base: nat): nat {
    base + |x.data| + |x.table| + |x.index| + |x.meta|
  }

  /** Each group starts where the one before it ends. */
  function SectionsOf(gs: seq<GroupRec>, base: nat): seq<Section> {
    if gs == [] then []
    else
      var x := SectionOf(gs[0], base);
      [x] + SectionsOf(gs[1..], End(x, base))
  }

  function SectionsBytes(xs: seq<Section>): Blob {
    if xs == [] then [] else SectionBytes(xs[0]) + SectionsBytes(xs[1..])
  }

  function TableHandle(x: Section, base: nat): Handle {
    Handle(base + |x.data|, |x.table|)
  }

  function DataHandle(x: Section, base: nat): Handle {
    Handle(base + |x.data| + |x.table|, |x.index|)
  }

  function MetaHandle(x: Section, base: nat): Handle {
    Handle(base + |x.data| + |x.table| + |x.index|, |x.meta|)
  }

  datatype PageIndex = PageIndex(id: nat, data: Handle, meta: Handle)

  function IndexesOf(xs: seq<Section>, base: nat): seq<PageIndex> {
    if xs == [] then []
    else [PageIndex(xs[0].id, DataHandle(xs[0], base), MetaHandle(xs[0], base))] + IndexesOf(xs[1..], End(xs[0], base))
  }

  function PageIndexBytes(i: PageIndex): (b: Blob)
    ensures |b| == 36
  {
    PutInt(i.id, 4) + PutWords([i.data.offset, i.data.length, i.meta.offset, i.meta.length])
  }

  function PageIndexesBytes(ix: seq<PageIndex>): Blob {
    if ix == [] then [] else PageIndexBytes(ix[0]) + PageIndexesBytes(ix[1..])
  }

  function FooterBytes(index: Handle, dealloc: Handle, compression: Byte, checksum: Byte): (b: Blob)
    ensures |b| == 42
  {
    PutWords([MAGIC, index.offset, index.length, dealloc.offset, dealloc.length]) + [compression, checksum]
  }

  /** What follows the groups: two blocks, and a footer that points to them. */
  datatype Tail = Tail(at: nat, indexes: Blob, pages: Blob, compression: Byte, checksum: Byte)

  function TailBytes(t: Tail): Blob {
    t.indexes + t.pages + FooterBytes(Handle(t.at, |t.indexes|), Handle(t.at + |t.indexes|, |t.pages|), t.compression,
      t.checksum)
  }

  function FileBytes(gs: seq<GroupRec>, dealloc: seq<nat>, compression: Byte, checksum: Byte): Blob {
    var xs := SectionsOf(gs, 0);
    var groups := SectionsBytes(xs);
    groups + TailBytes(Tail(|groups|, PageIndexesBytes(IndexesOf(xs, 0)), PutWords(dealloc), compression, checksum))
  }

  /** A file of one group with one page, as it is stored: the page, the page table, the data index, the meta
      index; then the index of groups, the dealloc pages and the footer. */
  lemma StoredFile(stored: Blob, n: nat)
    requires n == |stored|
    ensures FileBytes([GroupRec(3, [PageRec(5, 7, 9, 11, stored)])], [13], 1, 2)
         == stored + PutWords([5, 7]) + PutWords([5, 0, 9, 11]) + PutWords([n])
            + (PutInt(3, 4) + PutWords([n + 16, 32, n + 48, 8]) + PutWords([13])
               + (PutWords([0x17_9394, n + 56, 36, n + 92, 8]) + [1, 2]))
  {
    var p := PageRec(5, 7, 9, 11, stored);
    var g := GroupRec(3, [p]);
    OnePage(p);
    var x := Section(3, stored, PutWords([5, 7]), PutWords([5, 0, 9, 11]), PutWords([|stored|]));
    assert SectionOf(g, 0) == x;
    OneSection(g, x);
  }

  lemma OnePage(p: PageRec)
    ensures DataBlocks([p]) == p.stored && TableWords([p]) == [p.addr, p.id]
    ensures IndexWords([p], 0) == [p.addr, 0, p.meta, p.next]
  {
    assert [p][1..] == [];
    assert p.stored + [] == p.stored;
  }

  lemma OneSection(g: GroupRec, x: Section)
    requires x == SectionOf(g, 0)
    ensures SectionsBytes(SectionsOf([g], 0)) == SectionBytes(x)
    ensures PageIndexesBytes(IndexesOf(SectionsOf([g], 0), 0)) == PageIndexBytes(PageIndex(x.id, DataHandle(x, 0),
            MetaHandle(x, 0)))
  {
    assert [g][1..] == [];
    assert SectionsOf([g], 0) == [x] && [x][1..] == [];
    assert SectionBytes(x) + [] == SectionBytes(x);
    var i := PageIndex(x.id, DataHandle(x, 0), MetaHandle(x, 0));
    assert IndexesOf([x], 0) == [i] && [i][1..] == [];
    assert PageIndexBytes(i) + [] == PageIndexBytes(i);
  }

  // ----- What is read

  function ReadBlock(file: Blob, h: Handle): Option<Blob> {
    if h.offset + h.length <= |file| then Some(file[h.offset..h.offset + h.length]) else None
  }

  /** The metadata of one page: address, offset in the file, meta word and next address. */
  datatype PageInfo = PageInfo(addr: nat, offset: nat, meta: nat, next: nat)

  datatype GroupMeta = GroupMeta(id: nat, base: nat, table: nat, end: nat, infos: seq<PageInfo>,
                                 pageTable: seq<(nat, nat)>)

  datatype FileMeta = FileMeta(groups: seq<GroupMeta>, dealloc: seq<nat>, compression: Byte, checksum: Byte)

  function Quads(ws: seq<nat>): Option<seq<PageInfo>> {
    if ws == [] then Some([])
    else if |ws| < 4 then None
    else
      match Quads(ws[4..])
      case None => None
      case Some(rest) => Some([PageInfo(ws[0], ws[1], ws[2], ws[3])] + rest)
  }

  function Pairs(ws: seq<nat>): Option<seq<(nat, nat)>> {
    if ws == [] then Some([])
    else if |ws| < 2 then None
    else
      match Pairs(ws[2..])
      case None => None
      case Some(rest) => Some([(ws[0], ws[1])] + rest)
  }

  function ReadInfos(block: Blob): Option<seq<PageInfo>> {
    match GetWords(block)
    case None => None
    case Some(ws) => Quads(ws)
  }

  function ReadTable(block: Blob): Option<seq<(nat, nat)>> {
    match GetWords(block)
    case None => None
    case Some(ws) => Pairs(ws)
  }

  function ReadPageIndex(b: Blob): Option<PageIndex> {
    if |b| != 36 then None
    else
      match GetWords(b[4..])
      case None => None
      case Some(ws) =>
        if |ws| != 4 then None
        else Some(PageIndex(GetInt(b[..4]), Handle(ws[0], ws[1]), Handle(ws[2], ws[3])))
  }

  function ReadPageIndexes(b: Blob): Option<seq<PageIndex>> {
    if b == [] then Some([])
    else if |b| < 36 then None
    else
      match (ReadPageIndex(b[..36]), ReadPageIndexes(b[36..]))
      case (Some(x), Some(rest)) => Some([x] + rest)
      case _ => None
  }

  /** One page group: its index block, then its page table, which ends where the data index starts. */
  function ReadGroup(file: Blob, x: PageIndex, base: nat): Option<GroupMeta> {
    match (ReadBlock(file, x.data), ReadBlock(file, x.meta))
    case (Some(data), Some(meta)) =>
      if |meta| != 8 then None
      else
        var table := GetInt(meta);
        if x.data.offset < table then None
        else
          (match (ReadInfos(data), ReadBlock(file, Handle(table, x.data.offset - table)))
           case (Some(infos), Some(block)) =>
             (match ReadTable(block)
              case Some(pairs) => Some(GroupMeta(x.id, base, table, x.data.offset, infos, pairs))
              case None => None)
           case _ => None)
    case _ => None
  }

  function ReadGroups(file: Blob, xs: seq<PageIndex>, base: nat): Option<seq<GroupMeta>> {
    if xs == [] then Some([])
    else
      match (ReadGroup(file, xs[0], base), ReadGroups(file, xs[1..], xs[0].meta.offset + xs[0].meta.length))
      case (Some(g), Some(rest)) => Some([g] + rest)
      case _ => None
  }

  function ReadFile(file: Blob): Option<FileMeta> {
    if |file| < 42 then None
    else
      var footer := file[|file| - 42..];
      match GetWords(footer[..40])
      case None => None
      case Some(ws) =>
        if |ws| != 5 then None
        else
          match (ReadBlock(file, Handle(ws[1], ws[2])), ReadBlock(file, Handle(ws[3], ws[4])))
          case (Some(indexes), Some(pages)) =>
            (match (ReadPageIndexes(indexes), GetWords(pages))
             case (Some(xs), Some(dealloc)) =>
               (match ReadGroups(file, xs, 0)
                case Some(groups) => Some(FileMeta(groups, dealloc, footer[40], footer[41]))
                case None => None)
             case _ => None)
          case _ => None
  }

  // ----- What should be read

  function Infos(ps: seq<PageRec>, at: nat): seq<PageInfo> {
    if ps == [] then [] else [PageInfo(ps[0].addr, at, ps[0].meta, ps[0].next)] + Infos(ps[1..], at + |ps[0].stored|)
  }

  function Table(ps: seq<PageRec>): seq<(nat, nat)> {
    if ps == [] then [] else [(ps[0].addr, ps[0].id)] + Table(ps[1..])
  }

  function MetaOf(g: GroupRec, base: nat): GroupMeta {
    var x := SectionOf(g, base);
    GroupMeta(g.id, base, TableHandle(x, base).offset, DataHandle(x, base).offset, Infos(g.pages, base), Table(g.pages))
  }

  function MetasOf(gs: seq<GroupRec>, base: nat): (ms: seq<GroupMeta>)
    ensures |ms| == |gs|
  {
    if gs == [] then [] else [MetaOf(gs[0], base)] + MetasOf(gs[1..], End(SectionOf(gs[0], base), base))
  }

  ghost predicate PageFits(p: PageRec) {
    p.addr < U64 && p.id < U64 && p.meta < U64 && p.next < U64
  }

  ghost predicate GroupFits(g: GroupRec) {
    g.id < U32 && forall i {:trigger g.pages[i]} :: 0 <= i < |g.pages| ==> PageFits(g.pages[i])
  }

  ghost predicate GroupsFit(gs: seq<GroupRec>) {
    forall i {:trigger gs[i]} :: 0 <= i < |gs| ==> GroupFits(gs[i])
  }

  // ----- Words of a group

  lemma {:induction false} QuadsRoundTrip(ps: seq<PageRec>, at: nat)
    ensures Quads(IndexWords(ps, at)) == Some(Infos(ps, at))
  {
    if ps != [] {
      QuadsRoundTrip(ps[1..], at + |ps[0].stored|);
      assert IndexWords(ps, at)[4..] == IndexWords(ps[1..], at + |ps[0].stored|);
    }
  }

  lemma {:induction false} PairsRoundTrip(ps: seq<PageRec>)
    ensures Pairs(TableWords(ps)) == Some(Table(ps))
  {
    if ps != [] {
      PairsRoundTrip(ps[1..]);
      assert TableWords(ps)[2..] == TableWords(ps[1..]);
    }
  }

  lemma {:induction false} WordsFit(ps: seq<PageRec>, at: nat)
    requires (forall i {:trigger ps[i]} :: 0 <= i < |ps| ==> PageFits(ps[i])) && at + |DataBlocks(ps)| < U64
    ensures Fit(TableWords(ps)) && Fit(IndexWords(ps, at))
  {
    if ps != [] {
      assert PageFits(ps[0]);
      WordsFit(ps[1..], at + |ps[0].stored|);
    }
  }

  lemma InfosRead(ps: seq<PageRec>, at: nat)
    requires Fit(IndexWords(ps, at))
    ensures ReadInfos(PutWords(IndexWords(ps, at))) == Some(Infos(ps, at))
  {
    WordsRoundTrip(IndexWords(ps, at));
    QuadsRoundTrip(ps, at);
  }

  lemma TableReads(ps: seq<PageRec>)
    requires Fit(TableWords(ps))
    ensures ReadTable(PutWords(TableWords(ps))) == Some(Table(ps))
  {
    WordsRoundTrip(TableWords(ps));
    PairsRoundTrip(ps);
  }

  lemma OneWord(w: nat)
    requires w < U64
    ensures |PutWords([w])| == 8 && GetInt(PutWords([w])) == w
  {
    assert PutWords([w]) == PutInt(w, 8) + PutWords([w][1..]);
    assert PutWords([w]) == PutInt(w, 8);
    U64RoundTrip(w);
  }

  /** The parts of a section decode to `m`. */
  ghost predicate Decodes(x: Section, base: nat, m: GroupMeta) {
    match x
    case Section(id, data, table, index, meta) =>
      && |meta| == 8 && GetInt(meta) == base + |data|
      && ReadInfos(index) == Some(m.infos) && ReadTable(table) == Some(m.pageTable)
      && m.id == id && m.base == base && m.table == base + |data| && m.end == base + |data| + |table|
  }

  lemma SectionDecodes(g: GroupRec, base: nat)
    requires GroupFits(g) && End(SectionOf(g, base), base) < U64
    ensures Decodes(SectionOf(g, base), base, MetaOf(g, base))
  {
    WordsFit(g.pages, base);
    InfosRead(g.pages, base);
    TableReads(g.pages);
    OneWord(base + |DataBlocks(g.pages)|);
  }

  ghost predicate AllDecode(xs: seq<Section>, base: nat, ms: seq<GroupMeta>) {
    && |xs| == |ms|
    && (xs != [] ==> Decodes(xs[0], base, ms[0]) && AllDecode(xs[1..], End(xs[0], base), ms[1..]))
  }

  function Ends(xs: seq<Section>, base: nat): nat {
    if xs == [] then base else Ends(xs[1..], End(xs[0], base))
  }

  lemma {:induction false} EndsGrow(xs: seq<Section>, base: nat)
    ensures base <= Ends(xs, base) && Ends(xs, base) == base + |SectionsBytes(xs)|
  {
    if xs != [] {
      EndsGrow(xs[1..], End(xs[0], base));
    }
  }

  lemma {:induction false} SectionsDecode(gs: seq<GroupRec>, base: nat)
    requires GroupsFit(gs) && Ends(SectionsOf(gs, base), base) < U64
    ensures AllDecode(SectionsOf(gs, base), base, MetasOf(gs, base))
    decreases |gs|
  {
    if gs != [] {
      assert GroupFits(gs[0]);
      var x := SectionOf(gs[0], base);
      var xs, ms := SectionsOf(gs[1..], End(x, base)), MetasOf(gs[1..], End(x, base));
      Heads(x, xs, MetaOf(gs[0], base), ms);
      EndsGrow(xs, End(x, base));
      SectionDecodes(gs[0], base);
      SectionsDecode(gs[1..], End(x, base));
    }
  }

  lemma Heads(x: Section, xs: seq<Section>, m: GroupMeta, ms: seq<GroupMeta>)
    ensures ([x] + xs)[0] == x && ([x] + xs)[1..] == xs && ([m] + ms)[0] == m && ([m] + ms)[1..] == ms
  {
  }

  // ----- Blocks of a file

  lemma BlockReads(pre: Blob, b: Blob, post: Blob)
    ensures ReadBlock(pre + b + post, Handle(|pre|, |b|)) == Some(b)
  {
    assert (pre + b + post)[|pre|..|pre| + |b|] == b;
  }

  ghost predicate SectionIn(file: Blob, x: Section, base: nat) {
    match x
    case Section(_, data, table, index, meta) =>
      && ReadBlock(file, Handle(base, |data|)) == Some(data)
      && ReadBlock(file, TableHandle(x, base)) == Some(table)
      && ReadBlock(file, DataHandle(x, base)) == Some(index)
      && ReadBlock(file, MetaHandle(x, base)) == Some(meta)
  }

  ghost predicate SectionsIn(file: Blob, xs: seq<Section>, base: nat) {
    xs != [] ==> SectionIn(file, xs[0], base) && SectionsIn(file, xs[1..], End(xs[0], base))
  }

  lemma SectionBlocks(pre: Blob, x: Section, post: Blob, file: Blob)
    requires file == pre + SectionBytes(x) + post
    ensures SectionIn(file, x, |pre|)
  {
    var s := SectionBytes(x);
    BlockReads(pre, s, post);
    Slices(x.data, x.table, x.index, x.meta);
    var t, i, m := |x.data|, |x.data| + |x.table|, |x.data| + |x.table| + |x.index|;
    Within(file, |pre|, s, 0, |x.data|);
    Within(file, |pre|, s, t, |x.table|);
    Within(file, |pre|, s, i, |x.index|);
    Within(file, |pre|, s, m, |x.meta|);
  }

  lemma Slices(a: Blob, b: Blob, c: Blob, d: Blob)
    ensures var s, i, j, k := a + b + c + d, |a|, |a| + |b|, |a| + |b| + |c|;
            s[0..i] == a && s[i..j] == b && s[j..k] == c && s[k..k + |d|] == d
  {
  }

  lemma Regroup(pre: Blob, b: Blob, rest: Blob, post: Blob)
    ensures pre + (b + rest) + post == pre + b + (rest + post)
    ensures pre + (b + rest) + post == (pre + b) + rest + post
  {
  }

  lemma {:induction false} SectionsBlocks(pre: Blob, xs: seq<Section>, post: Blob, file: Blob)
    requires file == pre + SectionsBytes(xs) + post
    ensures SectionsIn(file, xs, |pre|)
    decreases |xs|
  {
    if xs != [] {
      var b, rest := SectionBytes(xs[0]), SectionsBytes(xs[1..]);
      Regroup(pre, b, rest, post);
      SectionBlocks(pre, xs[0], rest + post, file);
      SectionsBlocks(pre + b, xs[1..], post, file);
    }
  }

  /** A section that is in the file and decodes is read back. */
  lemma GroupReads(file: Blob, x: Section, base: nat, m: GroupMeta)
    requires SectionIn(file, x, base) && Decodes(x, base, m)
    ensures ReadGroup(file, PageIndex(x.id, DataHandle(x, base), MetaHandle(x, base)), base) == Some(m)
  {
  }

  lemma OneMoreGroup(file: Blob, x: PageIndex, xs: seq<PageIndex>, base: nat, g: GroupMeta, rest: seq<GroupMeta>)
    requires ReadGroup(file, x, base) == Some(g) && ReadGroups(file, xs, x.meta.offset + x.meta.length) == Some(rest)
    ensures ReadGroups(file, [x] + xs, base) == Some([g] + rest)
  {
    assert ([x] + xs)[1..] == xs;
  }

  lemma GroupsStep(file: Blob, x: Section, xs: seq<Section>, base: nat, m: GroupMeta, ms: seq<GroupMeta>)
    requires SectionIn(file, x, base) && Decodes(x, base, m)
    requires ReadGroups(file, IndexesOf(xs, End(x, base)), End(x, base)) == Some(ms)
    ensures ReadGroups(file, IndexesOf([x] + xs, base), base) == Some([m] + ms)
  {
    GroupReads(file, x, base, m);
    assert ([x] + xs)[1..] == xs;
    OneMoreGroup(file, PageIndex(x.id, DataHandle(x, base), MetaHandle(x, base)), IndexesOf(xs, End(x, base)), base, m,
      ms);
  }

  /** The first section and its metadata, and the same of the rest. */
  lemma Unfold(file: Blob, xs: seq<Section>, base: nat, ms: seq<GroupMeta>)
    requires SectionsIn(file, xs, base) && AllDecode(xs, base, ms) && xs != []
    ensures ms != [] && SectionIn(file, xs[0], base) && Decodes(xs[0], base, ms[0])
    ensures SectionsIn(file, xs[1..], End(xs[0], base)) && AllDecode(xs[1..], End(xs[0], base), ms[1..])
    ensures xs == [xs[0]] + xs[1..] && ms == [ms[0]] + ms[1..]
  {
  }

  lemma {:induction false} GroupsRead(file: Blob, xs: seq<Section>, base: nat, ms: seq<GroupMeta>)
    requires SectionsIn(file, xs, base) && AllDecode(xs, base, ms)
    ensures ReadGroups(file, IndexesOf(xs, base), base) == Some(ms)
    decreases |xs|
  {
    if xs != [] {
      Unfold(file, xs, base, ms);
      GroupsRead(file, xs[1..], End(xs[0], base), ms[1..]);
      GroupsStep(file, xs[0], xs[1..], base, ms[0], ms[1..]);
    }
  }

  // ----- The page index block

  ghost predicate IndexFits(i: PageIndex) {
    i.id < U32 && i.data.offset < U64 && i.data.length < U64 && i.meta.offset < U64 && i.meta.length < U64
  }

  ghost predicate AllFit(ix: seq<PageIndex>) {
    ix != [] ==> IndexFits(ix[0]) && AllFit(ix[1..])
  }

  lemma PageIndexReads(i: PageIndex)
    requires IndexFits(i)
    ensures ReadPageIndex(PageIndexBytes(i)) == Some(i)
  {
    var ws := [i.data.offset, i.data.length, i.meta.offset, i.meta.length];
    var b := PageIndexBytes(i);
    assert b[..4] == PutInt(i.id, 4) && b[4..] == PutWords(ws);
    U32RoundTrip(i.id);
    WordsRoundTrip(ws);
  }

  lemma {:induction false} PageIndexesRead(ix: seq<PageIndex>)
    requires AllFit(ix)
    ensures ReadPageIndexes(PageIndexesBytes(ix)) == Some(ix)
  {
    if ix != [] {
      PageIndexReads(ix[0]);
      PageIndexesRead(ix[1..]);
      Cut(PageIndexBytes(ix[0]), PageIndexesBytes(ix[1..]));
      assert ix == [ix[0]] + ix[1..];
    }
  }

  lemma Cut(a: Blob, b: Blob)
    ensures (a + b)[..|a|] == a && (a + b)[|a|..] == b
  {
  }

  lemma {:induction false} IndexesFit(gs: seq<GroupRec>, base: nat)
    requires GroupsFit(gs) && Ends(SectionsOf(gs, base), base) < U64
    ensures AllFit(IndexesOf(SectionsOf(gs, base), base))
    decreases |gs|
  {
    if gs != [] {
      assert GroupFits(gs[0]);
      var x := SectionOf(gs[0], base);
      var xs := SectionsOf(gs[1..], End(x, base));
      assert ([x] + xs)[1..] == xs;
      EndsGrow(xs, End(x, base));
      IndexesFit(gs[1..], End(x, base));
      var first := PageIndex(x.id, DataHandle(x, base), MetaHandle(x, base));
      assert ([first] + IndexesOf(xs, End(x, base)))[1..] == IndexesOf(xs, End(x, base));
    }
  }

  // ----- The tail

  ghost predicate TailIn(file: Blob, t: Tail) {
    match t
    case Tail(at, indexes, pages, compression, checksum) =>
      && |file| >= 42
      && var footer := file[|file| - 42..];
      && GetWords(footer[..40]) == Some([MAGIC, at, |indexes|, at + |indexes|, |pages|])
      && footer[40] == compression && footer[41] == checksum
      && ReadBlock(file, Handle(at, |indexes|)) == Some(indexes) &&
         ReadBlock(file, Handle(at + |indexes|, |pages|)) == Some(pages)
  }

  lemma FooterReads(body: Blob, index: Handle, dealloc: Handle, compression: Byte, checksum: Byte)
    requires index.offset < U64 && index.length < U64 && dealloc.offset < U64 && dealloc.length < U64
    ensures var file := body + FooterBytes(index, dealloc, compression, checksum);
            var footer := file[|file| - 42..];
            && GetWords(footer[..40]) == Some([MAGIC, index.offset, index.length, dealloc.offset, dealloc.length])
            && footer[40] == compression && footer[41] == checksum
  {
    var ws := [MAGIC, index.offset, index.length, dealloc.offset, dealloc.length];
    var f := FooterBytes(index, dealloc, compression, checksum);
    var file := body + f;
    assert file[|file| - 42..] == f;
    assert f[..40] == PutWords(ws);
    WordsRoundTrip(ws);
  }

  lemma TailBlocks(groups: Blob, indexes: Blob, pages: Blob, footer: Blob, file: Blob)
    requires file == groups + (indexes + pages + footer)
    ensures ReadBlock(file, Handle(|groups|, |indexes|)) == Some(indexes)
    ensures ReadBlock(file, Handle(|groups| + |indexes|, |pages|)) == Some(pages)
    ensures file == (groups + indexes + pages) + footer
  {
    assert file == groups + indexes + (pages + footer);
    BlockReads(groups, indexes, pages + footer);
    assert file == (groups + indexes) + pages + footer;
    BlockReads(groups + indexes, pages, footer);
  }

  lemma TailIs(groups: Blob, t: Tail)
    requires t.at == |groups| && |groups| + |t.indexes| + |t.pages| < U64
    ensures TailIn(groups + TailBytes(t), t)
  {
    var i, d := Handle(t.at, |t.indexes|), Handle(t.at + |t.indexes|, |t.pages|);
    FooterReads(groups + t.indexes + t.pages, i, d, t.compression, t.checksum);
    TailBlocks(groups, t.indexes, t.pages, FooterBytes(i, d, t.compression, t.checksum), groups + TailBytes(t));
  }

  /** The reader of a file, given its tail and what the blocks and the groups read as. */
  lemma ReadFileFrom(file: Blob, t: Tail, ix: seq<PageIndex>, dealloc: seq<nat>, groups: seq<GroupMeta>)
    requires TailIn(file, t)
    requires ReadPageIndexes(t.indexes) == Some(ix) && GetWords(t.pages) == Some(dealloc) &&
             ReadGroups(file, ix, 0) == Some(groups)
    ensures ReadFile(file) == Some(FileMeta(groups, dealloc, t.compression, t.checksum))
  {
  }

  lemma SectionsRead(gs: seq<GroupRec>, tail: Blob)
    requires GroupsFit(gs) && |SectionsBytes(SectionsOf(gs, 0))| < U64
    ensures var xs := SectionsOf(gs, 0);
            && ReadGroups(SectionsBytes(xs) + tail, IndexesOf(xs, 0), 0) == Some(MetasOf(gs, 0))
            && ReadPageIndexes(PageIndexesBytes(IndexesOf(xs, 0))) == Some(IndexesOf(xs, 0))
  {
    var xs := SectionsOf(gs, 0);
    var file := SectionsBytes(xs) + tail;
    EndsGrow(xs, 0);
    assert file == [] + SectionsBytes(xs) + tail;
    SectionsBlocks([], xs, tail, file);
    SectionsDecode(gs, 0);
    GroupsRead(file, xs, 0, MetasOf(gs, 0));
    IndexesFit(gs, 0);
    PageIndexesRead(IndexesOf(xs, 0));
  }

  /** The metadata of a file reads back exactly as it was written: the place of every group, the offset,
      meta word and next address of every page, the page tables and the deallocated pages. */
  lemma FileRoundTrip(gs: seq<GroupRec>, dealloc: seq<nat>, compression: Byte, checksum: Byte)
    requires GroupsFit(gs) && Fit(dealloc) && |FileBytes(gs, dealloc, compression, checksum)| < U64
    ensures ReadFile(FileBytes(gs, dealloc, compression, checksum)) == Some(FileMeta(MetasOf(gs, 0), dealloc,
            compression, checksum))
  {
    var xs := SectionsOf(gs, 0);
    var groups := SectionsBytes(xs);
    var t := Tail(|groups|, PageIndexesBytes(IndexesOf(xs, 0)), PutWords(dealloc), compression, checksum);
    SectionsRead(gs, TailBytes(t));
    TailIs(groups, t);
    WordsRoundTrip(dealloc);
    ReadFileFrom(groups + TailBytes(t), t, IndexesOf(xs, 0), dealloc, MetasOf(gs, 0));
  }

  // ----- What the page groups get

  function Addrs(infos: seq<PageInfo>): seq<nat> {
    seq(|infos|, i => if 0 <= i < |infos| then infos[i].addr else 0)
  }

  function Offsets(infos: seq<PageInfo>): seq<nat> {
    seq(|infos|, i => if 0 <= i < |infos| then infos[i].offset else 0)
  }

  lemma {:induction false} InfoAt(ps: seq<PageRec>, at: nat, i: nat)
    requires i < |ps|
    ensures |Infos(ps, at)| == |ps| && Infos(ps, at)[i].addr == ps[i].addr
    ensures at <= Infos(ps, at)[i].offset && Infos(ps, at)[i].offset + |ps[i].stored| <= at + |DataBlocks(ps)|
    ensures i == 0 ==> Infos(ps, at)[i].offset == at
    ensures i + 1 < |ps| ==> Infos(ps, at)[i + 1].offset == Infos(ps, at)[i].offset + |ps[i].stored|
    ensures i + 1 == |ps| ==> at + |DataBlocks(ps)| == Infos(ps, at)[i].offset + |ps[i].stored|
    decreases |ps|
  {
    var rest, at' := ps[1..], at + |ps[0].stored|;
    if i > 0 {
      InfoAt(rest, at', i - 1);
    } else if |ps| > 1 {
      InfoAt(rest, at', 0);
    } else {
      assert rest == [];
    }
  }

  lemma {:induction false} OffsetsAscend(ps: seq<PageRec>, at: nat, i: nat, j: nat)
    requires i <= j < |ps|
    ensures |Infos(ps, at)| == |ps| && Infos(ps, at)[i].offset <= Infos(ps, at)[j].offset
    decreases j
  {
    InfoAt(ps, at, j);
    if i < j {
      OffsetsAscend(ps, at, i, j - 1);
      InfoAt(ps, at, j - 1);
    }
  }

  ghost predicate InAddressOrder(ps: seq<PageRec>) {
    forall i, j :: 0 <= i < j < |ps| ==> ps[i].addr < ps[j].addr
  }

  lemma InfosLayout(ps: seq<PageRec>, base: nat)
    requires InAddressOrder(ps)
    ensures |Infos(ps, base)| == |ps|
    ensures PageGroup.Layout(Addrs(Infos(ps, base)), Offsets(Infos(ps, base)), base + |DataBlocks(ps)|)
    ensures ps != [] ==> Infos(ps, base)[0].offset == base
  {
    var infos := Infos(ps, base);
    if ps != [] {
      InfoAt(ps, base, 0);
      InfoAt(ps, base, |ps| - 1);
    }
    forall i, j | 0 <= i < j < |infos|
      ensures Addrs(infos)[i] < Addrs(infos)[j] && Offsets(infos)[i] <= Offsets(infos)[j]
    {
      InfoAt(ps, base, i);
      InfoAt(ps, base, j);
      OffsetsAscend(ps, base, i, j);
    }
  }

  /** Each page ends where it was stored with all its bytes. */
  lemma PageEnds(ps: seq<PageRec>, base: nat, i: nat)
    requires i < |ps|
    ensures |Infos(ps, base)| == |ps|
    ensures PageGroup.End(Offsets(Infos(ps, base)), base + |DataBlocks(ps)|, i) == Infos(ps,
            base)[i].offset + |ps[i].stored|
  {
    InfoAt(ps, base, i);
  }

  /** Pages added in address order have the layout that page groups are built from, whether the metadata
      comes from the builder or was read back. */
  lemma GroupLayout(g: GroupRec, base: nat)
    requires InAddressOrder(g.pages)
    ensures var m := MetaOf(g, base);
            && PageGroup.Layout(Addrs(m.infos), Offsets(m.infos), m.table) && m.base <= m.table
            && (m.infos != [] ==> m.infos[0].offset == m.base) && (m.infos == [] ==> m.base == m.table)
  {
    InfosLayout(g.pages, base);
  }

  // ----- The contents of pages

  /** The bytes of page `k` within the data blocks of its group. */
  lemma {:induction false} DataAt(ps: seq<PageRec>, at: nat, k: nat)
    requires k < |ps|
    ensures |Infos(ps, at)| == |ps|
    ensures var from := Infos(ps, at)[k].offset - at;
            0 <= from && from + |ps[k].stored| <= |DataBlocks(ps)| &&
              DataBlocks(ps)[from..from + |ps[k].stored|] == ps[k].stored
    decreases |ps|
  {
    var first, rest := ps[0].stored, DataBlocks(ps[1..]);
    InfosTail(ps, at, k);
    if k == 0 {
      SliceFront(first, rest);
    } else {
      DataAt(ps[1..], at + |first|, k - 1);
      SliceBehind(first, rest, Infos(ps[1..], at + |first|)[k - 1].offset - at - |first|, |ps[k].stored|);
    }
  }

  lemma InfosTail(ps: seq<PageRec>, at: nat, k: nat)
    requires k < |ps|
    ensures |Infos(ps, at)| == |ps| && (k == 0 ==> Infos(ps, at)[0].offset == at)
    ensures k > 0 ==> |Infos(ps[1..], at + |ps[0].stored|)| == |ps| - 1
    ensures k > 0 ==> Infos(ps, at)[k] == Infos(ps[1..], at + |ps[0].stored|)[k - 1]
  {
    InfoAt(ps, at, k);
  }

  lemma SliceFront(first: Blob, rest: Blob)
    ensures (first + rest)[0..|first|] == first
  {
  }

  lemma SliceBehind(first: Blob, rest: Blob, from: nat, n: nat)
    requires from + n <= |rest|
    ensures (first + rest)[|first| + from..|first| + from + n] == rest[from..from + n]
  {
  }

  lemma Within(file: Blob, at: nat, b: Blob, from: nat, n: nat)
    requires ReadBlock(file, Handle(at, |b|)) == Some(b) && from + n <= |b|
    ensures ReadBlock(file, Handle(at + from, n)) == Some(b[from..from + n])
  {
    var x := file[at + from..at + from + n];
    forall i | 0 <= i < n
      ensures x[i] == b[from + i]
    {
      assert x[i] == file[at + (from + i)];
    }
    assert x == b[from..from + n];
  }

  /** The base of group `i`, and its section in the file. */
  lemma {:induction false} SectionAt(file: Blob, gs: seq<GroupRec>, base: nat, i: nat)
    requires SectionsIn(file, SectionsOf(gs, base), base) && i < |gs|
    ensures |MetasOf(gs, base)| == |gs|
    ensures var m := MetasOf(gs, base)[i];
            m == MetaOf(gs[i], m.base) && SectionIn(file, SectionOf(gs[i], m.base), m.base)
    decreases |gs|
  {
    var x := SectionOf(gs[0], base);
    var xs, ms := SectionsOf(gs[1..], End(x, base)), MetasOf(gs[1..], End(x, base));
    Heads(x, xs, MetaOf(gs[0], base), ms);
    if |gs| > 1 {
      SectionAt(file, gs[1..], End(x, base), if i > 0 then i - 1 else 0);
    } else {
      assert ms == [];
    }
  }

  /** With the handles that a page group computes from the metadata, every page of the file reads as the
      bytes it was stored with. */
  lemma PageContentsRead(gs: seq<GroupRec>, dealloc: seq<nat>, compression: Byte, checksum: Byte, i: nat, k: nat,
                         metas: map<nat, PageGroup.PageMeta>)
    requires i < |gs| && k < |gs[i].pages|
    requires var m := MetasOf(gs, 0)[i]; PageGroup.MetaFor(metas, PageGroup.Lows(Addrs(m.infos)), Offsets(m.infos),
             m.table)
    ensures var low := gs[i].pages[k].addr % PageGroup.U32;
            && low in metas
            && ReadBlock(FileBytes(gs, dealloc, compression, checksum), Handle(metas[low].offset, metas[low].size))
               == Some(gs[i].pages[k].stored)
  {
    FileSections(gs, dealloc, compression, checksum);
    PageReads(FileBytes(gs, dealloc, compression, checksum), gs, i, k, metas);
  }

  lemma FileSections(gs: seq<GroupRec>, dealloc: seq<nat>, compression: Byte, checksum: Byte)
    ensures SectionsIn(FileBytes(gs, dealloc, compression, checksum), SectionsOf(gs, 0), 0)
  {
    var file := FileBytes(gs, dealloc, compression, checksum);
    var xs := SectionsOf(gs, 0);
    var t := Tail(|SectionsBytes(xs)|, PageIndexesBytes(IndexesOf(xs, 0)), PutWords(dealloc), compression, checksum);
    assert file == [] + SectionsBytes(xs) + TailBytes(t);
    SectionsBlocks([], xs, TailBytes(t), file);
  }

  lemma PageReads(file: Blob, gs: seq<GroupRec>, i: nat, k: nat, metas: map<nat, PageGroup.PageMeta>)
    requires SectionsIn(file, SectionsOf(gs, 0), 0) && i < |gs| && k < |gs[i].pages|
    requires var m := MetasOf(gs, 0)[i]; PageGroup.MetaFor(metas, PageGroup.Lows(Addrs(m.infos)), Offsets(m.infos),
             m.table)
    ensures var low := gs[i].pages[k].addr % PageGroup.U32;
            low in metas && ReadBlock(file, Handle(metas[low].offset, metas[low].size)) == Some(gs[i].pages[k].stored)
  {
    SectionAt(file, gs, 0, i);
    var m := MetasOf(gs, 0)[i];
    MetaFields(gs[i], m.base);
    GroupPageReads(file, gs[i], m.base, k, metas);
  }

  lemma MetaFields(g: GroupRec, base: nat)
    ensures MetaOf(g, base).infos == Infos(g.pages, base) && MetaOf(g, base).table == base + |DataBlocks(g.pages)|
  {
  }

  lemma GroupPageReads(file: Blob, g: GroupRec, base: nat, k: nat, metas: map<nat, PageGroup.PageMeta>)
    requires SectionIn(file, SectionOf(g, base), base) && k < |g.pages|
    requires var infos := Infos(g.pages, base);
             PageGroup.MetaFor(metas, PageGroup.Lows(Addrs(infos)), Offsets(infos), base + |DataBlocks(g.pages)|)
    ensures var low := g.pages[k].addr % PageGroup.U32;
            && low in metas
            && ReadBlock(file, Handle(metas[low].offset, metas[low].size)) == Some(g.pages[k].stored)
  {
    var ps, infos := g.pages, Infos(g.pages, base);
    InfoAt(ps, base, k);
    DataAt(ps, base, k);
    PageEnds(ps, base, k);
    assert PageGroup.Lows(Addrs(infos))[k] == ps[k].addr % PageGroup.U32;
    Within(file, base, DataBlocks(ps), infos[k].offset - base, |ps[k].stored|);
  }
}
