/**
 The HTTP byte-range reassembler of src/app-layer-htp-range.c, on values.

 Several flows fetch pieces of one resource.  A shared container lends its file to at
 most one block at a time, parks out-of-order pieces in an ordered tree and merges them
 when a block closes.  This module defines every operation as a function, and a system of
 containers and blocks whose atomic steps are the operations that run under the
 hash-entry lock (open, close, evict) or touch only what a block owns (append, free).
 */
module RangeModel {
  import opened Common

  type Byte = bv8

  const U32_MAX: nat := 0xFFFF_FFFF

  /** What a caller delivers: bytes, or the length of bytes the stream lost. */
  datatype Chunk = Data(bytes: seq<Byte>) | Gap(missing: nat) {
    function Len(): nat {
      match this
      case Data(bytes) => |bytes|
      case Gap(missing) => missing
    }
  }

  // ----- the file contract (src/util-file.c:693-775) -----

  /** A file under reassembly; `size` counts every byte offered, `stored` those kept. */
  datatype File = File(size: nat, stored: seq<Byte>, writable: bool, gapped: bool)

  const NEW_FILE := File(0, [], true, false)

  /** The file-container reference: NULL, a container without a file, one with its file. */
  datatype Files = NoFiles | EmptyFiles | OneFile(file: File)

  datatype Appended = Appended(file: File, ok: bool)

  /** Appending nothing is an error; a failed append still counts its bytes and leaves the
      file refusing every later append; a gap only raises the size. */
  function FileAppend(f: File, d: Chunk, storeOk: bool): Appended {
    if d.Len() == 0 then Appended(f, false)
    else
      var g := f.(size := f.size + d.Len());
      match d
      case Gap(_) => Appended(g.(gapped := true), true)
      case Data(bytes) =>
        if !f.writable then Appended(g, false)
        else if storeOk then Appended(g.(stored := f.stored + bytes), true)
        else Appended(g.(writable := false), false)
  }

  // ----- fragments and the ordered tree -----

  /** An out-of-order buffer: `written` is its first `offset` bytes. */
  datatype Fragment = Fragment(start: nat, buflen: nat, written: seq<Byte>, gap: nat) {
    function Offset(): nat { |written| }
    function End(): nat { start + |written| }
  }

  /** The tree's comparator: start, then buflen, then offset. */
  function Compare(a: Fragment, b: Fragment): int {
    if a.start > b.start then 1
    else if a.start < b.start then -1
    else if a.buflen > b.buflen then 1
    else if a.buflen < b.buflen then -1
    else if a.Offset() > b.Offset() then 1
    else if a.Offset() < b.Offset() then -1
    else 0
  }

  ghost predicate Sorted(t: seq<Fragment>) {
    forall i, j :: 0 <= i < j < |t| ==> Compare(t[i], t[j]) < 0
  }

  /** The tree already holds a fragment the comparator cannot tell from `x`. */
  predicate Holds(t: seq<Fragment>, x: Fragment) {
    exists i :: 0 <= i < |t| && Compare(t[i], x) == 0
  }

  function Insert(t: seq<Fragment>, x: Fragment): seq<Fragment> {
    if t == [] || Compare(x, t[0]) < 0 then [x] + t
    else [t[0]] + Insert(t[1..], x)
  }

  // ----- container and block -----

  datatype Container = Container(files: Files, tree: seq<Fragment>, lastsize: nat, totalsize: nat, error: bool)

  const NEW_CONTAINER := Container(EmptyFiles, [], 0, 0, false)

  /** `attached` says that the block's container reference is set. */
  datatype Block = Block(toskip: nat, current: Option<Fragment>, attached: bool, files: Files)

  const NEW_BLOCK := Block(0, None, false, NoFiles)

  /** The Content-Range of one response: `first` and `last` are inclusive. */
  datatype Request = Request(first: nat, last: nat, total: nat) {
    predicate Valid() { first <= last < total }
    function Len(): nat requires Valid() { last - first + 1 }
  }

  /** What the environment decides during an open: allocations, file opening, memcap. */
  datatype OpenEnv = OpenEnv(fileOpenOk: bool, blockAllocOk: bool, memcapOk: bool, rangeAllocOk: bool,
      bufferAllocOk: bool)

  datatype Opened = Opened(c: Container, memuse: int, block: Option<Block>)

  /** HttpRangeOpenFileAux: pick the kind of block for this request. */
  function OpenAux(c0: Container, memuse: int, r: Request, env: OpenEnv): Opened
    requires r.Valid()
  {
    if c0.files.EmptyFiles? && !env.fileOpenOk then Opened(c0, memuse, None)
    else
      var c1 := if c0.files.EmptyFiles? then c0.(files := OneFile(NEW_FILE)) else c0;
      if !env.blockAllocOk then Opened(c1.(error := true), memuse, None)
      else
        var c := c1.(totalsize := if r.total > c1.totalsize then r.total else c1.totalsize);
        if r.first == c.lastsize && !c.files.NoFiles? then
          Opened(c.(files := NoFiles), memuse, Some(NEW_BLOCK.(attached := true, files := c.files)))
        else if r.first < c.lastsize && c.lastsize - r.first >= r.Len() then
          Opened(c, memuse, Some(NEW_BLOCK.(toskip := r.Len())))
        else if r.first < c.lastsize && !c.files.NoFiles? then
          Opened(c.(files := NoFiles), memuse,
                 Some(NEW_BLOCK.(toskip := c.lastsize - r.first, attached := true, files := c.files)))
        else if !env.memcapOk then
          Opened(c, memuse, Some(NEW_BLOCK.(toskip := r.Len())))
        else if !env.rangeAllocOk || !env.bufferAllocOk then
          Opened(c.(error := true), memuse, None)
        else
          Opened(c, memuse + r.Len(),
                 Some(NEW_BLOCK.(attached := true, current := Some(Fragment(r.first, r.Len(), [], 0)))))
  }

  /** What is left of the data behind its first n bytes. */
  function Beyond(d: Chunk, n: nat): Chunk
    requires n <= d.Len()
  {
    match d
    case Gap(missing) => Gap(missing - n)
    case Data(bytes) => Data(bytes[n..])
  }

  /** SCHttpRangeAppendData: skip, append to the owned file, or fill the own buffer. */
  function Append(b: Block, d: Chunk, storeOk: bool): Block {
    if b.toskip >= d.Len() then b.(toskip := b.toskip - d.Len())
    else if b.toskip > 0 then
      var b' := b.(toskip := 0);
      if !b.files.OneFile? then b'
      else b'.(files := OneFile(FileAppend(b.files.file, Beyond(d, b.toskip), storeOk).file))
    else if b.files.OneFile? then
      b.(files := OneFile(FileAppend(b.files.file, d, storeOk).file))
    else if b.current.Some? then
      b.(current := Some(Fill(b.current.value, d)))
    else b
  }

  /** Copy into the out-of-order buffer, never beyond its length. */
  function Fill(x: Fragment, d: Chunk): Fragment {
    match d
    case Gap(n) => x.(gap := x.gap + n)
    case Data(bytes) =>
      if x.Offset() + |bytes| <= x.buflen then x.(written := x.written + bytes)
      else if x.Offset() <= x.buflen then x.(written := x.written + bytes[..x.buflen - x.Offset()])
      else x
  }

  /** HttpRangeOpenFile: open, then append the first data; a failed append is ignored. */
  function OpenFile(c: Container, memuse: int, r: Request, env: OpenEnv, d: Chunk, storeOk: bool): Opened
    requires r.Valid()
  {
    var o := OpenAux(c, memuse, r, env);
    if o.block.None? then o else o.(block := Some(Append(o.block.value, d, storeOk)))
  }

  /** Outcome of merging: what is left in the tree, the file, the buffer bytes released. */
  datatype Merged = Merged(tree: seq<Fragment>, file: File, freed: nat, ok: bool)

  /** Append what the fragment adds to a file that has reached its start. */
  function AppendFragment(f: File, x: Fragment, storeOk: bool): Appended
    requires x.start <= f.size
  {
    var overlap := f.size - x.start;
    if overlap == 0 || overlap < x.Offset() then
      var g := if x.gap > 0 then FileAppend(f, Gap(if x.gap <= U32_MAX then x.gap else U32_MAX), true)
        else Appended(f, true);
      if !g.ok then g
      else if x.Offset() - overlap > U32_MAX then Appended(g.file, false)
      else FileAppend(g.file, Data(x.written[overlap..]), storeOk)
    else Appended(f, true)
  }

  /** Does the next append in the merge loop store its bytes? */
  function StoreOk(fails: seq<bool>): bool { fails == [] || !fails[0] }

  function Rest(fails: seq<bool>): seq<bool> { if fails == [] then [] else fails[1..] }

  /** The merge loop of HttpRangeClose; `fails` says which appends the file refuses. */
  function Merge(tree: seq<Fragment>, f: File, fails: seq<bool>): Merged {
    if tree == [] || f.size < tree[0].start then Merged(tree, f, 0, true)
    else
      var a := AppendFragment(f, tree[0], StoreOk(fails));
      if !a.ok then Merged(tree, a.file, 0, false)
      else
        var m := Merge(tree[1..], a.file, Rest(fails));
        m.(freed := m.freed + tree[0].buflen)
  }

  /** A file given to the closing flow, and whether it was cut short by an error. */
  datatype HandOut = HandOut(file: File, truncated: bool)

  datatype ClosedRange = ClosedRange(c: Container, b: Block, memuse: int, out: Option<HandOut>)

  /** The tail of HttpRangeClose, once the container holds its file. */
  function MergeInto(c: Container, b: Block, memuse: int, fails: seq<bool>): ClosedRange
    requires c.files.OneFile?
  {
    var m := Merge(c.tree, c.files.file, fails);
    var c' := c.(tree := m.tree, lastsize := m.file.size, files := EmptyFiles);
    if !m.ok then ClosedRange(c'.(error := true), b, memuse - m.freed, Some(HandOut(m.file, true)))
    else if m.file.size >= c.totalsize then ClosedRange(c', b, memuse - m.freed, Some(HandOut(m.file, false)))
    else ClosedRange(c'.(files := OneFile(m.file)), b, memuse - m.freed, None)
  }

  /** The validations at lines 505 and 509: an in-order block still owns an open file. */
  predicate CloseSafe(b: Block) {
    b.current.None? && b.toskip == 0 ==> b.files.OneFile?
  }

  /** HttpRangeClose on an attached block. */
  function Close(c: Container, b: Block, memuse: int, fails: seq<bool>): ClosedRange
    requires CloseSafe(b)
  {
    if b.current.Some? then
      var x := b.current.value;
      var b' := b.(current := None);
      if c.lastsize >= x.End() || Holds(c.tree, x) then ClosedRange(c, b', memuse - x.buflen, None)
      else
        var c' := c.(tree := Insert(c.tree, x));
        if c.files.OneFile? then MergeInto(c', b', memuse, fails) else ClosedRange(c', b', memuse, None)
    else if b.toskip > 0 then
      if b.files.NoFiles? then ClosedRange(c, b, memuse, None)
      else ClosedRange(c.(files := b.files), b.(files := NoFiles), memuse, None)
    else
      MergeInto(c.(files := b.files), b.(files := NoFiles), memuse, fails)
  }

  function TreeBytes(t: seq<Fragment>): nat {
    if t == [] then 0 else t[0].buflen + TreeBytes(t[1..])
  }

  function CurrentBytes(b: Block): nat {
    if b.current.Some? then b.current.value.buflen else 0
  }

  // ----- the system -----

  /** A hash entry: the container, its use count, whether the table still holds it, and
      every file it ever handed out. */
  datatype Entry = Entry(c: Container, useCnt: int, live: bool, handed: seq<HandOut>) {
    /** The entry after a close. */
    function Closed(r: ClosedRange): Entry {
      this.(c := r.c, handed := if r.out.Some? then handed + [r.out.value] else handed)
    }
  }

  datatype Stage = Active | Finished | Released

  /** A block, the entry it was opened on, its request and the bytes delivered so far. */
  datatype Slot = Slot(home: nat, req: Request, sent: nat, b: Block, stage: Stage)

  /** `memuse` is the share of the table's counter that out-of-order buffers account for;
      `crashed` records that one of the source's validations failed. */
  datatype System = System(entries: seq<Entry>, slots: seq<Slot>, memuse: int, crashed: bool)

  const START := System([], [], 0, false)

  datatype Event =
    | Create
    | Open(entry: nat, req: Request, env: OpenEnv, data: Chunk, storeOk: bool)
    | Deliver(slot: nat, data: Chunk, storeOk: bool)
    | Finish(slot: nat, data: Chunk, storeOk: bool, fails: seq<bool>)
    | Release(slot: nat)
    | Evict(entry: nat)

  /** Lookups skip entries in error; a block is finished once and released after that; only
      an entry without users is evicted. */
  predicate Enabled(s: System, e: Event) {
    match e
    case Create => true
    case Open(k, r, _, _, _) => k < |s.entries| && s.entries[k].live && !s.entries[k].c.error && r.Valid()
    case Deliver(i, _, _) => i < |s.slots| && s.slots[i].stage == Active
    case Finish(i, _, _, _) => i < |s.slots| && s.slots[i].stage == Active
    case Release(i) => i < |s.slots| && s.slots[i].stage == Finished
    case Evict(k) => k < |s.entries| && s.entries[k].live && s.entries[k].useCnt == 0
  }

  function NextOpen(s: System, k: nat, r: Request, env: OpenEnv, d: Chunk, storeOk: bool): System
    requires k < |s.entries| && r.Valid()
  {
    var o := OpenFile(s.entries[k].c, s.memuse, r, env, d, storeOk);
    if o.block.None? then
      s.(entries := s.entries[k := s.entries[k].(c := o.c)], memuse := o.memuse)
    else
      var n := s.entries[k].useCnt + if o.block.value.attached then 1 else 0;
      s.(entries := s.entries[k := s.entries[k].(c := o.c, useCnt := n)],
         slots := s.slots + [Slot(k, r, d.Len(), o.block.value, Active)],
         memuse := o.memuse)
  }

  function NextDeliver(s: System, i: nat, d: Chunk, storeOk: bool): System
    requires i < |s.slots|
  {
    var x := s.slots[i];
    s.(slots := s.slots[i := x.(b := Append(x.b, d, storeOk), sent := x.sent + d.Len())])
  }

  /** HttpRangeClose under the entry's lock, with the validations at lines 438, 505, 509. */
  function NextClose(s: System, i: nat, fails: seq<bool>): System
    requires i < |s.slots|
  {
    var x := s.slots[i];
    if !x.b.attached then s.(slots := s.slots[i := x.(stage := Finished)])
    else if x.home >= |s.entries| || !s.entries[x.home].live || !CloseSafe(x.b) then s.(crashed := true)
    else
      var en := s.entries[x.home];
      var r := Close(en.c, x.b, s.memuse, fails);
      s.(entries := s.entries[x.home := en.Closed(r)],
         slots := s.slots[i := x.(b := r.b, stage := Finished)],
         memuse := r.memuse,
         crashed := s.crashed || (r.out.Some? && en.useCnt == 0))
  }

  /** SCHttpRangeFreeBlock, with the validations at lines 599, 608, 619. */
  function NextRelease(s: System, i: nat): System
    requires i < |s.slots|
  {
    var x := s.slots[i];
    if !x.b.files.NoFiles? || (x.b.attached && (x.home >= |s.entries| || s.entries[x.home].useCnt == 0)) then
      s.(crashed := true)
    else
      s.(entries := if !x.b.attached then s.entries
                    else s.entries[x.home := s.entries[x.home].(useCnt := s.entries[x.home].useCnt - 1)],
         slots := s.slots[i := x.(b := NEW_BLOCK, stage := Released)],
         memuse := s.memuse - CurrentBytes(x.b))
  }

  /** ContainerUrlRangeFree on an idle entry, with the validation at line 155. */
  function NextEvict(s: System, k: nat): System
    requires k < |s.entries|
  {
    var en := s.entries[k];
    if en.c.files.NoFiles? then s.(crashed := true)
    else
      s.(entries := s.entries[k := en.(live := false, c := en.c.(files := NoFiles, tree := []))],
         memuse := s.memuse - TreeBytes(en.c.tree))
  }

  function Next(s: System, e: Event): System
    requires Enabled(s, e)
  {
    match e
    case Create => s.(entries := s.entries + [Entry(NEW_CONTAINER, 0, true, [])])
    case Open(k, r, env, d, ok) => NextOpen(s, k, r, env, d, ok)
    case Deliver(i, d, ok) => NextDeliver(s, i, d, ok)
    case Finish(i, d, ok, fails) => NextClose(NextDeliver(s, i, d, ok), i, fails)
    case Release(i) => NextRelease(s, i)
    case Evict(k) => NextEvict(s, k)
  }

  /** Every event of the run is enabled when it happens. */
  ghost predicate Runs(s: System, es: seq<Event>)
    decreases |es|
  {
    es == [] || (Enabled(s, es[0]) && Runs(Next(s, es[0]), es[1..]))
  }

  function After(s: System, es: seq<Event>): System
    requires Runs(s, es)
    decreases |es|
  {
    if es == [] then s else After(Next(s, es[0]), es[1..])
  }
}
