/**
 The builders of page files (photondb/src/page_store/page_file/map_file_builder.rs,
 photondb/src/page_store/page_file/file_builder.rs): they hand blocks to the buffered writer one by one and
 keep the offsets that it returns.  A `BTreeMap` or `BTreeSet` is the sequence of its entries in key order.
 */
module FileBuilder {
  import opened Options
  import opened Data
  import opened SortedPage
  import opened PageFile
  import opened BufferedWriter
  import PageGroup

  /** A page as the jobs add it: its compressed content and the checksum of that, if there is one. */
  datatype NewPage = NewPage(addr: nat, id: nat, meta: nat, next: nat, content: Blob, checksum: Option<nat>)

  datatype NewGroup = NewGroup(id: nat, pages: seq<NewPage>)

  function Rec(p: NewPage): PageRec {
    PageRec(p.addr, p.id, p.meta, p.next, p.content + if p.checksum.Some? then PutInt(p.checksum.value, 4) else [])
  }

  function Recs(ps: seq<NewPage>): (r: seq<PageRec>)
    ensures |r| == |ps|
  {
    if ps == [] then [] else Recs(ps[..|ps| - 1]) + [Rec(ps[|ps| - 1])]
  }

  function GroupRecs(gs: seq<NewGroup>): (r: seq<GroupRec>)
    ensures |r| == |gs|
  {
    if gs == [] then [] else GroupRecs(gs[..|gs| - 1]) + [GroupRec(gs[|gs| - 1].id, Recs(gs[|gs| - 1].pages))]
  }

  // ----- Ordered maps and sets

  /** `BTreeMap::insert` for page infos. */
  function InsertInfo(s: seq<PageInfo>, x: PageInfo): seq<PageInfo> {
    if s == [] then [x]
    else if x.addr < s[0].addr then [x] + s
    else if x.addr == s[0].addr then [x] + s[1..]
    else [s[0]] + InsertInfo(s[1..], x)
  }

  /** `BTreeMap::insert` for the page table. */
  function InsertPair(s: seq<(nat, nat)>, x: (nat, nat)): seq<(nat, nat)> {
    if s == [] then [x]
    else if x.0 < s[0].0 then [x] + s
    else if x.0 == s[0].0 then [x] + s[1..]
    else [s[0]] + InsertPair(s[1..], x)
  }

  /** `BTreeSet::insert`. */
  function InsertAddr(s: seq<nat>, x: nat): seq<nat> {
    if s == [] then [x]
    else if x < s[0] then [x] + s
    else if x == s[0] then s
    else [s[0]] + InsertAddr(s[1..], x)
  }

  function SortedSet(s: seq<nat>): seq<nat> {
    if s == [] then [] else InsertAddr(SortedSet(s[..|s| - 1]), s[|s| - 1])
  }

  lemma {:induction false} InsertInfoLast(s: seq<PageInfo>, x: PageInfo)
    requires forall i :: 0 <= i < |s| ==> s[i].addr < x.addr
    ensures InsertInfo(s, x) == s + [x]
  {
    if s != [] {
      InsertInfoLast(s[1..], x);
    }
  }

  lemma {:induction false} InsertPairLast(s: seq<(nat, nat)>, x: (nat, nat))
    requires forall i :: 0 <= i < |s| ==> s[i].0 < x.0
    ensures InsertPair(s, x) == s + [x]
  {
    if s != [] {
      InsertPairLast(s[1..], x);
    }
  }

  ghost predicate Ascending(s: seq<nat>) {
    forall i, j :: 0 <= i < j < |s| ==> s[i] < s[j]
  }

  lemma {:induction false} InsertAddrMembers(s: seq<nat>, x: nat, y: nat)
    ensures y in InsertAddr(s, x) <==> y in s || y == x
  {
    if s != [] && x > s[0] {
      InsertAddrMembers(s[1..], x, y);
    }
  }

  lemma {:induction false} InsertAddrAscends(s: seq<nat>, x: nat)
    requires Ascending(s)
    ensures Ascending(InsertAddr(s, x))
  {
    if s != [] && x > s[0] {
      InsertAddrAscends(s[1..], x);
      var r := InsertAddr(s[1..], x);
      forall k | 0 <= k < |r|
        ensures s[0] < r[k]
      {
        InsertAddrMembers(s[1..], x, r[k]);
        assert r[k] in r;
      }
    }
  }

  /** The dealloc block lists every added address once, in ascending order. */
  lemma {:induction false} SortedSetIs(s: seq<nat>, y: nat)
    ensures Ascending(SortedSet(s)) && (y in SortedSet(s) <==> y in s)
  {
    if s != [] {
      var n := |s| - 1;
      SortedSetIs(s[..n], y);
      InsertAddrAscends(SortedSet(s[..n]), s[n]);
      InsertAddrMembers(SortedSet(s[..n]), s[n], y);
      assert s == s[..n] + [s[n]];
    }
  }

  // ----- Words of the ordered maps

  function InfoWords(infos: seq<PageInfo>): seq<nat> {
    if infos == [] then [] else [infos[0].addr, infos[0].offset, infos[0].meta, infos[0].next] + InfoWords(infos[1..])
  }

  function PairWords(pairs: seq<(nat, nat)>): seq<nat> {
    if pairs == [] then [] else [pairs[0].0, pairs[0].1] + PairWords(pairs[1..])
  }

  lemma {:induction false} InfoWordsAre(ps: seq<PageRec>, at: nat)
    ensures InfoWords(Infos(ps, at)) == IndexWords(ps, at)
  {
    if ps != [] {
      InfoWordsAre(ps[1..], at + |ps[0].stored|);
      assert Infos(ps, at)[1..] == Infos(ps[1..], at + |ps[0].stored|);
    }
  }

  lemma {:induction false} PairWordsAre(ps: seq<PageRec>)
    ensures PairWords(Table(ps)) == TableWords(ps)
  {
    if ps != [] {
      PairWordsAre(ps[1..]);
      assert Table(ps)[1..] == Table(ps[1..]);
    }
  }

  // ----- Appending

  lemma {:induction false} DataAppend(ps: seq<PageRec>, p: PageRec)
    ensures DataBlocks(ps + [p]) == DataBlocks(ps) + p.stored
  {
    if ps == [] {
      assert ps + [p] == [p];
    } else {
      DataAppend(ps[1..], p);
      assert (ps + [p])[1..] == ps[1..] + [p];
    }
  }

  lemma {:induction false} InfosAppend(ps: seq<PageRec>, at: nat, p: PageRec)
    ensures Infos(ps + [p], at) == Infos(ps, at) + [PageInfo(p.addr, at + |DataBlocks(ps)|, p.meta, p.next)]
  {
    if ps == [] {
      assert ps + [p] == [p];
    } else {
      var rest, at' := ps[1..], at + |ps[0].stored|;
      InfosAppend(rest, at', p);
      assert (ps + [p])[0] == ps[0] && (ps + [p])[1..] == rest + [p];
      assert at + |DataBlocks(ps)| == at' + |DataBlocks(rest)|;
    }
  }

  lemma {:induction false} TableAppend(ps: seq<PageRec>, p: PageRec)
    ensures Table(ps + [p]) == Table(ps) + [(p.addr, p.id)]
  {
    if ps == [] {
      assert ps + [p] == [p];
    } else {
      TableAppend(ps[1..], p);
      assert (ps + [p])[1..] == ps[1..] + [p];
    }
  }

  lemma {:induction false} SectionsAppend(gs: seq<GroupRec>, base: nat, g: GroupRec)
    ensures var end := Ends(SectionsOf(gs, base), base);
            SectionsOf(gs + [g], base) == SectionsOf(gs, base) + [SectionOf(g, end)]
  {
    if gs == [] {
      assert gs + [g] == [g];
    } else {
      var x := SectionOf(gs[0], base);
      SectionsAppend(gs[1..], End(x, base), g);
      assert (gs + [g])[1..] == gs[1..] + [g];
      assert SectionsOf(gs, base)[1..] == SectionsOf(gs[1..], End(x, base));
    }
  }

  lemma {:induction false} BytesAppend(xs: seq<Section>, x: Section)
    ensures SectionsBytes(xs + [x]) == SectionsBytes(xs) + SectionBytes(x)
  {
    if xs == [] {
      assert xs + [x] == [x];
    } else {
      BytesAppend(xs[1..], x);
      assert (xs + [x])[1..] == xs[1..] + [x];
    }
  }

  lemma {:induction false} IndexesAppend(xs: seq<Section>, base: nat, x: Section)
    ensures var end := Ends(xs, base);
            IndexesOf(xs + [x], base) == IndexesOf(xs, base) + [PageIndex(x.id, DataHandle(x, end), MetaHandle(x, end))]
  {
    if xs == [] {
      assert xs + [x] == [x];
    } else {
      IndexesAppend(xs[1..], End(xs[0], base), x);
      assert (xs + [x])[1..] == xs[1..] + [x];
    }
  }

  // ----- The builder

  /** The bytes of finished groups. */
  ghost function Finished(gs: seq<GroupRec>): Blob {
    SectionsBytes(SectionsOf(gs, 0))
  }

  /** What the builder holds about an open group is what a reader should get of the pages added so far. */
  ghost predicate Open(pages: seq<PageRec>, base: nat, infos: seq<PageInfo>, table: seq<(nat, nat)>) {
    InAddressOrder(pages) && infos == Infos(pages, base) && table == Table(pages)
  }

  lemma {:induction false} TableAtIs(ps: seq<PageRec>, i: nat)
    requires i < |ps|
    ensures |Table(ps)| == |ps| && Table(ps)[i].0 == ps[i].addr
  {
    InfosLength(ps, 0);
    if i > 0 {
      TableAtIs(ps[1..], i - 1);
    }
  }

  lemma {:induction false} InfosLength(ps: seq<PageRec>, at: nat)
    ensures |Infos(ps, at)| == |ps| && |Table(ps)| == |ps|
  {
    if ps != [] {
      InfosLength(ps[1..], at + |ps[0].stored|);
    }
  }

  ghost predicate Behind(pages: seq<PageRec>, addr: nat) {
    forall i {:trigger pages[i]} :: 0 <= i < |pages| ==> pages[i].addr < addr
  }

  /** One more page, at the offset where the writer put it. */
  lemma OpenNext(pages: seq<PageRec>, base: nat, infos: seq<PageInfo>, table: seq<(nat, nat)>, p: PageRec, offset: nat)
    requires Open(pages, base, infos, table) && offset == base + |DataBlocks(pages)| && Behind(pages, p.addr)
    ensures Open(pages + [p], base, InsertInfo(infos, PageInfo(p.addr, offset, p.meta, p.next)),
            InsertPair(table, (p.addr, p.id)))
  {
    forall i | 0 <= i < |pages|
      ensures |infos| == |pages| && infos[i].addr < p.addr
    {
      InfoAt(pages, base, i);
    }
    forall i | 0 <= i < |pages|
      ensures |table| == |pages| && table[i].0 < p.addr
    {
      TableAtIs(pages, i);
    }
    InfosLength(pages, base);
    InsertInfoLast(infos, PageInfo(p.addr, offset, p.meta, p.next));
    InsertPairLast(table, (p.addr, p.id));
    InfosAppend(pages, base, p);
    TableAppend(pages, p);
  }

  /** The metadata blocks of a group behind its data make its section. */
  lemma SectionMade(id: nat, pages: seq<PageRec>, base: nat, infos: seq<PageInfo>, table: seq<(nat, nat)>)
    requires Open(pages, base, infos, table)
    ensures SectionOf(GroupRec(id, pages), base)
         == Section(id, DataBlocks(pages), PutWords(PairWords(table)), PutWords(InfoWords(infos)),
           PutWords([base + |DataBlocks(pages)|]))
  {
    InfoWordsAre(pages, base);
    PairWordsAre(pages);
  }

  lemma GroupAppended(gs: seq<GroupRec>, g: GroupRec, x: Section)
    requires x == SectionOf(g, |Finished(gs)|)
    ensures var base := |Finished(gs)|;
            && Finished(gs + [g]) == Finished(gs) + SectionBytes(x)
            && IndexesOf(SectionsOf(gs + [g], 0), 0)
               == IndexesOf(SectionsOf(gs, 0), 0) + [PageIndex(x.id, DataHandle(x, base), MetaHandle(x, base))]
  {
    var xs := SectionsOf(gs, 0);
    EndsGrow(xs, 0);
    SectionsAppend(gs, 0, g);
    BytesAppend(xs, x);
    IndexesAppend(xs, 0, x);
  }

  // ----- The state of the builder

  /** `data` is what was written; `done` are the finished groups and `pages` the pages of the open one. */
  datatype Progress = Progress(
    data: Blob, done: seq<GroupRec>, pages: seq<PageRec>,
    base: nat, infos: seq<PageInfo>, table: seq<(nat, nat)>, indexes: seq<PageIndex>)

  /** The parts of the builder's invariant. */
  datatype Part = Written | OpenGroup | Indexed

  /** What was written are the finished groups and the data blocks of the open one; the index entries
      point to the blocks of the finished groups. */
  ghost predicate Holds(d: Progress, part: Part) {
    match part
    case Written => d.base == |Finished(d.done)| && d.data == Finished(d.done) + DataBlocks(d.pages)
    case OpenGroup => Open(d.pages, d.base, d.infos, d.table)
    case Indexed => d.indexes == IndexesOf(SectionsOf(d.done, 0), 0)
  }

  ghost predicate Kept(d: Progress) {
    forall part {:trigger Holds(d, part)} :: Holds(d, part)
  }

  lemma AllParts(d: Progress)
    requires Kept(d)
    ensures d.base == |Finished(d.done)| && d.data == Finished(d.done) + DataBlocks(d.pages)
    ensures Open(d.pages, d.base, d.infos, d.table) && d.indexes == IndexesOf(SectionsOf(d.done, 0), 0)
  {
    assert Holds(d, Written) && Holds(d, OpenGroup) && Holds(d, Indexed);
  }

  lemma KeptEmpty()
    ensures Kept(Progress([], [], [], 0, [], [], []))
  {
  }

  lemma KeptStart(d: Progress)
    requires Kept(d) && d.pages == []
    ensures Kept(d.(base := |d.data|, infos := [], table := []))
  {
    AllParts(d);
  }

  lemma KeptPage(d: Progress, p: PageRec)
    requires Kept(d) && Behind(d.pages, p.addr)
    ensures Kept(d.(data := d.data + p.stored, pages := d.pages + [p],
                     infos := InsertInfo(d.infos, PageInfo(p.addr, |d.data|, p.meta, p.next)),
                     table := InsertPair(d.table, (p.addr, p.id))))
  {
    AllParts(d);
    OpenNext(d.pages, d.base, d.infos, d.table, p, |d.data|);
    DataAppend(d.pages, p);
    Associate(Finished(d.done), DataBlocks(d.pages), p.stored);
  }

  lemma Associate(a: Blob, b: Blob, c: Blob)
    ensures a + b + c == a + (b + c)
  {
  }

  /** The three blocks that finish a group and the handles of two of them. */
  lemma KeptGroup(d: Progress, id: nat, t: Blob, i: Blob, m: Blob, data: Blob, x: PageIndex)
    requires Kept(d) && t == PutWords(PairWords(d.table)) && i == PutWords(InfoWords(d.infos)) &&
             m == PutWords([|d.data|])
    requires data == d.data + t + i + m
    requires x == PageIndex(id, Handle(|d.data| + |t|, |i|), Handle(|d.data| + |t| + |i|, |m|))
    ensures Kept(Progress(data, d.done + [GroupRec(id, d.pages)], [], |data|, [], [], d.indexes + [x]))
  {
    AllParts(d);
    var g, a := GroupRec(id, d.pages), DataBlocks(d.pages);
    SectionMade(id, d.pages, d.base, d.infos, d.table);
    GroupAppended(d.done, g, Section(id, a, t, i, m));
    FourParts(Finished(d.done), a, t, i, m);
    NewGroupKept(d.done + [g], data, d.indexes + [x]);
  }

  lemma NewGroupKept(done: seq<GroupRec>, data: Blob, indexes: seq<PageIndex>)
    requires data == Finished(done) && indexes == IndexesOf(SectionsOf(done, 0), 0)
    ensures Kept(Progress(data, done, [], |data|, [], [], indexes))
  {
    assert Finished(done) + [] == Finished(done);
  }

  lemma FourParts(f: Blob, a: Blob, t: Blob, i: Blob, m: Blob)
    ensures f + a + t + i + m == f + (a + t + i + m) && f + (a + t + i + m) + [] == f + (a + t + i + m)
  {
  }

  /** The tail behind finished groups completes the file. */
  lemma FileIs(done: seq<GroupRec>, dealloc: seq<nat>, compression: Byte, checksum: Byte, groups: Blob, x: Blob,
               p: Blob)
    requires groups == Finished(done) && x == PageIndexesBytes(IndexesOf(SectionsOf(done, 0), 0)) &&
             p == PutWords(dealloc)
    ensures groups + x + p + FooterBytes(Handle(|groups|, |x|), Handle(|groups| + |x|, |p|), compression, checksum)
         == FileBytes(done, dealloc, compression, checksum)
  {
    var t := Tail(|groups|, x, p, compression, checksum);
    assert FileBytes(done, dealloc, compression, checksum) == groups + TailBytes(t);
    ThreeParts(groups, x, p, FooterBytes(Handle(|groups|, |x|), Handle(|groups| + |x|, |p|), compression, checksum));
  }

  lemma NothingOpen(d: Progress)
    requires Kept(d) && d.pages == []
    ensures d.data == Finished(d.done) && d.indexes == IndexesOf(SectionsOf(d.done, 0), 0)
  {
    AllParts(d);
    assert Finished(d.done) + [] == Finished(d.done);
  }

  lemma ThreeParts(f: Blob, x: Blob, p: Blob, e: Blob)
    ensures f + x + p + e == f + (x + p + e)
  {
  }

  // ----- The builder

  /** Page table, data index and meta index, with the handles of the last two. */
  method WriteMeta(writer: Writer, id: nat, table: Blob, index: Blob) returns (x: PageIndex)
    requires writer.Valid() && writer.nextPageOffset == |writer.data|
    modifies writer, writer.buffer
    ensures writer.Valid() && writer.nextPageOffset == |writer.data|
    ensures var before, m := old(writer.data), PutWords([|old(writer.data)|]);
            && writer.data == before + table + index + m
            && x == PageIndex(id, Handle(|before| + |table|, |index|), Handle(|before| + |table| + |index|, |m|))
  {
    var tableOffset := writer.WriteBlock(table, None);
    var m := PutWords([tableOffset]);
    var dataOffset := writer.WriteBlock(index, None);
    var metaOffset := writer.WriteBlock(m, None);
    x := PageIndex(id, Handle(dataOffset, |index|), Handle(metaOffset, |m|));
  }

  /** Page index block, dealloc block and footer. */
  method WriteTail(writer: Writer, indexes: Blob, dealloc: Blob, compression: Byte, checksum: Byte)
    requires writer.Valid() && writer.nextPageOffset == |writer.data|
    modifies writer, writer.buffer
    ensures writer.Valid()
    ensures var before := old(writer.data);
            writer.data == before + indexes + dealloc
                           + FooterBytes(Handle(|before|, |indexes|), Handle(|before| + |indexes|, |dealloc|),
                             compression, checksum)
  {
    var i, d := WriteTwo(writer, indexes, dealloc);
    var _ := writer.WriteBlock(FooterBytes(i, d, compression, checksum), None);
  }

  method WriteTwo(writer: Writer, a: Blob, b: Blob) returns (i: Handle, d: Handle)
    requires writer.Valid() && writer.nextPageOffset == |writer.data|
    modifies writer, writer.buffer
    ensures writer.Valid() && writer.nextPageOffset == |writer.data|
    ensures var before := old(writer.data);
            writer.data == before + a + b && i == Handle(|before|, |a|) && d == Handle(|before| + |a|, |b|)
  {
    var at := writer.WriteBlock(a, None);
    var next := writer.WriteBlock(b, None);
    i, d := Handle(at, |a|), Handle(next, |b|);
  }

  class Builder {
    const writer: Writer
    var groupId: nat
    var base: nat
    var infos: seq<PageInfo>
    var table: seq<(nat, nat)>
    var indexes: seq<PageIndex>
    var dealloc: seq<nat>
    ghost var done: seq<GroupRec>
    ghost var pages: seq<PageRec>
    ghost var added: seq<nat>

    ghost predicate Valid()
      reads this, writer, writer.buffer
    {
      && writer.Valid() && writer.nextPageOffset == |writer.data|
      && Kept(Progress(writer.data, done, pages, base, infos, table, indexes))
      && dealloc == SortedSet(added)
    }

    constructor (batch: nat, direct: bool, align: nat)
      requires batch > 0 && align > 0
      ensures Valid() && done == [] && pages == [] && added == [] && fresh(writer) && fresh(writer.buffer)
      ensures writer.direct == direct
    {
      KeptEmpty();
      writer := new Writer(batch, direct, align);
      groupId, base, infos, table, indexes, dealloc := 0, 0, [], [], [], [];
      done, pages, added := [], [], [];
    }

    /** `add_page_group`. */
    method AddPageGroup(id: nat)
      requires Valid() && pages == []
      modifies `groupId, `base, `infos, `table
      ensures Valid() && groupId == id
    {
      KeptStart(Progress(writer.data, done, pages, base, infos, table, indexes));
      groupId := id;
      base := writer.nextPageOffset;
      infos, table := [], [];
    }

    /** `add_page`: the block goes to the file, and the page is found at the offset the writer returns. */
    method AddPage(p: NewPage)
      requires Valid() && Behind(pages, p.addr)
      modifies `infos, `table, `pages, writer, writer.buffer
      ensures Valid() && pages == old(pages) + [Rec(p)]
    {
      KeptPage(Progress(writer.data, done, pages, base, infos, table, indexes), Rec(p));
      ghost var before := writer.data;
      var offset := writer.WriteBlock(p.content, p.checksum);
      StoredAppended(before, p);
      infos := InsertInfo(infos, PageInfo(p.addr, offset, p.meta, p.next));
      table := InsertPair(table, (p.addr, p.id));
      pages := pages + [Rec(p)];
    }

    /** `finish` of a group: page table, data index and meta index, with the handles the writer gives. */
    method FinishGroup()
      requires Valid()
      modifies `base, `infos, `table, `indexes, `done, `pages, writer, writer.buffer
      ensures Valid() && done == old(done) + [GroupRec(groupId, old(pages))] && pages == []
    {
      ghost var before := Progress(writer.data, done, pages, base, infos, table, indexes);
      var t, i := PutWords(PairWords(table)), PutWords(InfoWords(infos));
      var x;
      x := WriteMeta(writer, groupId, t, i);
      KeptGroup(before, groupId, t, i, PutWords([|before.data|]), writer.data, x);
      indexes := indexes + [x];
      base := writer.nextPageOffset;
      infos, table := [], [];
      done, pages := done + [GroupRec(groupId, pages)], [];
    }

    /** `add_dealloc_pages`. */
    method AddDeallocPages(addrs: seq<nat>)
      requires Valid()
      modifies `dealloc, `added
      ensures Valid() && added == old(added) + addrs
    {
      dealloc := InsertAll(dealloc, addrs, added);
      added := added + addrs;
    }

    /** `finish`: the page index block, the dealloc block and the footer; then everything is in the file. */
    method Finish(compression: Byte, checksum: Byte)
      requires Valid() && pages == []
      modifies writer, writer.buffer
      ensures writer.file == FileBytes(done, SortedSet(added), compression, checksum)
    {
      NothingOpen(Progress(writer.data, done, pages, base, infos, table, indexes));
      var x, p := PageIndexesBytes(indexes), PutWords(dealloc);
      FileIs(done, dealloc, compression, checksum, writer.data, x, p);
      WriteTail(writer, x, p, compression, checksum);
      writer.FlushAndSync();
    }
  }

  /** `BTreeSet::extend`. */
  method InsertAll(s: seq<nat>, addrs: seq<nat>, ghost added: seq<nat>) returns (r: seq<nat>)
    requires s == SortedSet(added)
    ensures r == SortedSet(added + addrs)
  {
    r := s;
    assert added + addrs[..0] == added;
    for k := 0 to |addrs|
      invariant r == SortedSet(added + addrs[..k])
    {
      SortedSetNext(added + addrs[..k], addrs[k]);
      r := InsertAddr(r, addrs[k]);
      assert added + addrs[..k] + [addrs[k]] == added + addrs[..k + 1];
    }
    assert addrs[..|addrs|] == addrs;
  }

  lemma StoredAppended(data: Blob, p: NewPage)
    ensures data + Rec(p).stored
         == if p.checksum.Some? then data + p.content + PutInt(p.checksum.value, 4) else data + p.content
  {
    if p.checksum.Some? {
      Associate(data, p.content, PutInt(p.checksum.value, 4));
    } else {
      assert p.content + [] == p.content;
    }
  }

  lemma SortedSetNext(s: seq<nat>, x: nat)
    ensures SortedSet(s + [x]) == InsertAddr(SortedSet(s), x)
  {
    assert (s + [x])[..|s|] == s;
  }

  // ----- Whole files

  ghost predicate PagesAscend(ps: seq<NewPage>) {
    forall i, j :: 0 <= i < j < |ps| ==> ps[i].addr < ps[j].addr
  }

  ghost predicate GroupsAscend(gs: seq<NewGroup>) {
    forall i {:trigger gs[i]} :: 0 <= i < |gs| ==> PagesAscend(gs[i].pages)
  }

  lemma {:induction false} RecsAt(ps: seq<NewPage>, i: nat)
    requires i < |ps|
    ensures Recs(ps)[i] == Rec(ps[i])
  {
    if i < |ps| - 1 {
      RecsAt(ps[..|ps| - 1], i);
    }
  }

  lemma RecsNext(ps: seq<NewPage>, k: nat)
    requires k < |ps|
    ensures Recs(ps[..k + 1]) == Recs(ps[..k]) + [Rec(ps[k])]
  {
    assert ps[..k + 1][..k] == ps[..k];
  }

  lemma RecsBehind(ps: seq<NewPage>, k: nat)
    requires PagesAscend(ps) && k < |ps|
    ensures Behind(Recs(ps[..k]), ps[k].addr)
  {
    forall i | 0 <= i < k
      ensures Recs(ps[..k])[i].addr < ps[k].addr
    {
      RecsAt(ps[..k], i);
    }
  }

  lemma GroupRecsNext(gs: seq<NewGroup>, k: nat)
    requires k < |gs|
    ensures GroupRecs(gs[..k + 1]) == GroupRecs(gs[..k]) + [GroupRec(gs[k].id, Recs(gs[k].pages))]
  {
    assert gs[..k + 1][..k] == gs[..k];
  }

  /** The pages of one group, one after the other. */
  method AddGroup(b: Builder, g: NewGroup)
    requires b.Valid() && b.pages == [] && PagesAscend(g.pages)
    modifies b, b.writer, b.writer.buffer
    ensures b.Valid() && b.pages == [] && b.done == old(b.done) + [GroupRec(g.id, Recs(g.pages))] &&
            b.added == old(b.added)
  {
    b.AddPageGroup(g.id);
    for k := 0 to |g.pages|
      invariant b.Valid() && b.pages == Recs(g.pages[..k]) && b.done == old(b.done) && b.added == old(b.added) &&
                b.groupId == g.id
    {
      RecsBehind(g.pages, k);
      RecsNext(g.pages, k);
      b.AddPage(g.pages[k]);
    }
    assert g.pages[..|g.pages|] == g.pages;
    b.FinishGroup();
  }

  /** Whatever the sizes of the blocks and of the buffer, and with or without direct writes, the builder writes
      exactly the file whose metadata and pages read back. */
  method WriteFile(gs: seq<NewGroup>, dealloc: seq<nat>, batch: nat, direct: bool, align: nat, compression: Byte,
                   checksum: Byte)
    returns (file: Blob)
    requires batch > 0 && align > 0 && GroupsAscend(gs)
    ensures file == FileBytes(GroupRecs(gs), SortedSet(dealloc), compression, checksum)
  {
    var b := new Builder(batch, direct, align);
    for k := 0 to |gs|
      invariant b.Valid() && b.pages == [] && b.added == [] && b.done == GroupRecs(gs[..k])
      invariant fresh(b) && fresh(b.writer) && fresh(b.writer.buffer)
    {
      GroupRecsNext(gs, k);
      AddGroup(b, gs[k]);
    }
    assert gs[..|gs|] == gs && [] + dealloc == dealloc;
    b.AddDeallocPages(dealloc);
    b.Finish(compression, checksum);
    file := b.writer.file;
  }

  lemma {:induction false} GroupRecsAt(gs: seq<NewGroup>, i: nat)
    requires i < |gs|
    ensures GroupRecs(gs)[i] == GroupRec(gs[i].id, Recs(gs[i].pages))
  {
    if i < |gs| - 1 {
      GroupRecsAt(gs[..|gs| - 1], i);
    }
  }

  lemma SortedSetFits(dealloc: seq<nat>)
    requires Fit(dealloc)
    ensures Fit(SortedSet(dealloc))
  {
    var s := SortedSet(dealloc);
    forall i | 0 <= i < |s|
      ensures s[i] < U64
    {
      SortedSetIs(dealloc, s[i]);
    }
  }

  /** What `WriteFile` wrote reads back: the metadata of every group, and the deallocated pages in order. */
  lemma WrittenMetaReads(gs: seq<NewGroup>, dealloc: seq<nat>, compression: Byte, checksum: Byte, file: Blob)
    requires file == FileBytes(GroupRecs(gs), SortedSet(dealloc), compression, checksum)
    requires GroupsFit(GroupRecs(gs)) && Fit(dealloc) && |file| < U64
    ensures ReadFile(file) == Some(FileMeta(MetasOf(GroupRecs(gs), 0), SortedSet(dealloc), compression, checksum))
  {
    SortedSetFits(dealloc);
    FileRoundTrip(GroupRecs(gs), SortedSet(dealloc), compression, checksum);
  }

  /** With the handles that the group gets from that metadata, every page reads as the bytes that were added,
      followed by its checksum. */
  lemma WrittenPageReads(gs: seq<NewGroup>, dealloc: seq<nat>, compression: Byte, checksum: Byte, file: Blob, i: nat,
                         k: nat,
                         metas: map<nat, PageGroup.PageMeta>)
    requires file == FileBytes(GroupRecs(gs), SortedSet(dealloc), compression, checksum)
    requires i < |gs| && k < |gs[i].pages|
    requires var m := MetasOf(GroupRecs(gs), 0)[i];
             PageGroup.MetaFor(metas, PageGroup.Lows(Addrs(m.infos)), Offsets(m.infos), m.table)
    ensures var p := gs[i].pages[k];
            var low := p.addr % PageGroup.U32;
            && low in metas
            && ReadBlock(file, Handle(metas[low].offset, metas[low].size))
               == Some(p.content + if p.checksum.Some? then PutInt(p.checksum.value, 4) else [])
  {
    GroupRecsAt(gs, i);
    RecsAt(gs[i].pages, k);
    PageContentsRead(GroupRecs(gs), SortedSet(dealloc), compression, checksum, i, k, metas);
  }
}
