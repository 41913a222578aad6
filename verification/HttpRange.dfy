/**
 The byte-range operations as the source performs them: fields updated in place, the merge
 and teardown loops, the shared memory counter.  Each method is proved to compute the
 function of RangeModel with its name, so the theorems over runs are about these methods.
 */
module HttpRange {
  import opened Common
  import opened RangeModel

  /** The table's memory counter (the share of out-of-order buffers). */
  class RangeTable {
    var memuse: int
  }

  class RangeContainer {
    var files: Files
    var tree: seq<Fragment>
    var lastsize: nat
    var totalsize: nat
    var error: bool

    function View(): Container
      reads this
    {
      Container(files, tree, lastsize, totalsize, error)
    }

    constructor ()
      ensures View() == NEW_CONTAINER
    {
      files, tree, lastsize, totalsize, error := EmptyFiles, [], 0, 0, false;
    }

    /** ContainerUrlRangeFree: drop the file and every parked buffer. */
    method Free(t: RangeTable)
      modifies this, t
      ensures View() == old(View()).(files := NoFiles, tree := [])
      ensures t.memuse == old(t.memuse) - TreeBytes(old(tree))
    {
      files := NoFiles;
      while tree != []
        invariant View() == old(View()).(files := NoFiles, tree := tree)
        invariant t.memuse - TreeBytes(tree) == old(t.memuse) - TreeBytes(old(tree))
        decreases |tree|
      {
        t.memuse := t.memuse - tree[0].buflen;
        tree := tree[1..];
      }
    }
  }

  class RangeBlock {
    var toskip: nat
    var current: Option<Fragment>
    var container: RangeContainer?
    var files: Files

    function View(): Block
      reads this
    {
      Block(toskip, current, container != null, files)
    }

    constructor ()
      ensures View() == NEW_BLOCK
    {
      toskip, current, container, files := 0, None, null, NoFiles;
    }

    /** SCHttpRangeAppendData. */
    method AppendData(d: Chunk, storeOk: bool) returns (ok: bool)
      modifies this
      ensures View() == Append(old(View()), d, storeOk)
      ensures container == old(container)
      ensures ok == if old(files.OneFile?) && d.Len() > old(toskip)
                    then FileAppend(old(files).file, Beyond(d, old(toskip)), storeOk).ok else true
    {
      ok := true;
      if d.Len() == 0 {
        return;
      }
      if toskip >= d.Len() {
        toskip := toskip - d.Len();
        return;
      }
      if toskip > 0 {
        if files.OneFile? {
          var a := FileAppend(files.file, Beyond(d, toskip), storeOk);
          files := OneFile(a.file);
          ok := a.ok;
        }
        toskip := 0;
        return;
      }
      if files.OneFile? {
        var a := FileAppend(files.file, d, storeOk);
        files := OneFile(a.file);
        return a.ok;
      }
      if current.Some? {
        current := Some(Fill(current.value, d));
      }
    }

    /** HttpRangeClose, called with the entry locked on a block that has a container. */
    method Close(t: RangeTable, fails: seq<bool>) returns (out: Option<HandOut>)
      requires container != null && CloseSafe(View())
      modifies this, t, container
      ensures container == old(container)
      ensures ClosedRange(container.View(), View(), t.memuse, out) ==
                RangeModel.Close(old(container.View()), old(View()), old(t.memuse), fails)
    {
      var c := container;
      if current.Some? {
        var x := current.value;
        current := None;
        if c.lastsize >= x.End() || Holds(c.tree, x) {
          t.memuse := t.memuse - x.buflen;
          return None;
        }
        c.tree := Insert(c.tree, x);
        if !c.files.OneFile? {
          return None;
        }
      } else if toskip > 0 {
        if !files.NoFiles? {
          c.files := files;
          files := NoFiles;
        }
        return None;
      } else {
        c.files := files;
        files := NoFiles;
      }
      out := MergeFragments(t, c, fails);
    }

    /** SCHttpRangeFreeBlock; `users` is the use count of the block's entry. */
    method Free(t: RangeTable, users: int) returns (left: int)
      modifies this, t
      ensures View() == NEW_BLOCK.(toskip := old(toskip))
      ensures t.memuse == old(t.memuse) - CurrentBytes(old(View()))
      ensures left == users - if old(container) != null then 1 else 0
    {
      left := users;
      if container != null {
        left := users - 1;
        container := null;
      }
      if current.Some? {
        t.memuse := t.memuse - current.value.buflen;
        current := None;
      }
      files := NoFiles;
    }
  }

  /** The tail of HttpRangeClose: the merge loop, then the decision to hand the file out. */
  method MergeFragments(t: RangeTable, c: RangeContainer, fails: seq<bool>) returns (out: Option<HandOut>)
    requires c.files.OneFile?
    modifies t, c
    ensures forall b :: ClosedRange(c.View(), b, t.memuse, out) == MergeInto(old(c.View()), b, old(t.memuse), fails)
  {
    var f := c.files.file;
    ghost var m := Merge(c.tree, f, fails);
    var left := fails;
    while c.tree != [] && f.size >= c.tree[0].start
      invariant c.View() == old(c.View()).(tree := c.tree)
      invariant t.memuse <= old(t.memuse)
      invariant var n := Merge(c.tree, f, left); m == n.(freed := n.freed + (old(t.memuse) - t.memuse))
      decreases |c.tree|
    {
      var x := c.tree[0];
      var a := AppendFragment(f, x, StoreOk(left));
      f := a.file;
      if !a.ok {
        c.lastsize := f.size;
        c.files := EmptyFiles;
        c.error := true;
        return Some(HandOut(f, true));
      }
      left := Rest(left);
      c.tree := c.tree[1..];
      t.memuse := t.memuse - x.buflen;
    }
    c.lastsize := f.size;
    if f.size >= c.totalsize {
      c.files := EmptyFiles;
      out := Some(HandOut(f, false));
    } else {
      c.files := OneFile(f);
      out := None;
    }
  }

  /** HttpRangeOpenFileAux. */
  method OpenFileAux(t: RangeTable, c: RangeContainer, r: Request, env: OpenEnv) returns (b: RangeBlock?)
    requires r.Valid()
    modifies t, c
    ensures b != null ==> fresh(b) && (b.container == null || b.container == c)
    ensures Opened(c.View(), t.memuse, if b == null then None else Some(b.View())) ==
              OpenAux(old(c.View()), old(t.memuse), r, env)
  {
    if c.files.EmptyFiles? {
      if !env.fileOpenOk {
        return null;
      }
      c.files := OneFile(NEW_FILE);
    }
    if !env.blockAllocOk {
      c.error := true;
      return null;
    }
    b := new RangeBlock();
    if r.total > c.totalsize {
      c.totalsize := r.total;
    }
    var buflen := r.last - r.first + 1;
    if r.first == c.lastsize && !c.files.NoFiles? {
      b.container := c;
      b.files := c.files;
      c.files := NoFiles;
      return;
    } else if r.first < c.lastsize && c.lastsize - r.first >= buflen {
      b.toskip := buflen;
      return;
    } else if r.first < c.lastsize && c.lastsize - r.first < buflen && !c.files.NoFiles? {
      b.toskip := c.lastsize - r.first;
      b.files := c.files;
      c.files := NoFiles;
      b.container := c;
      return;
    }
    if !env.memcapOk {
      b.toskip := buflen;
      return;
    }
    b.container := c;
    if !env.rangeAllocOk {
      c.error := true;
      return null;
    }
    t.memuse := t.memuse + buflen;
    if !env.bufferAllocOk {
      c.error := true;
      t.memuse := t.memuse - buflen;
      return null;
    }
    b.current := Some(Fragment(r.first, buflen, [], 0));
  }

  /** HttpRangeOpenFile: open and append the first data. */
  method OpenRange(t: RangeTable, c: RangeContainer, r: Request, env: OpenEnv, d: Chunk,
                   storeOk: bool) returns (b: RangeBlock?)
    requires r.Valid()
    modifies t, c
    ensures b != null ==> fresh(b) && (b.container == null || b.container == c)
    ensures Opened(c.View(), t.memuse, if b == null then None else Some(b.View())) ==
              OpenFile(old(c.View()), old(t.memuse), r, env, d, storeOk)
  {
    b := OpenFileAux(t, c, r, env);
    if b != null {
      var _ := b.AppendData(d, storeOk);
    }
  }
}
