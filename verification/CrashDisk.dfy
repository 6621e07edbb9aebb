/** A file system that may crash between any two calls, and the write-temp, sync, rename pattern on it. */
module CrashDisk {
  import opened Options
  import opened Text

  datatype Path = Path(dir: string, name: string)

  /** File contents. `data` is absent while the file holds less than was meant to be written; what is not
      synced may read as anything after a crash. */
  datatype Inode<T> = Inode(data: Option<T>, synced: bool)

  /** Directory changes reach the disk in order, but a crash may lose the latest of them. */
  datatype DirOp = Link(path: Path, ino: nat) | Move(src: Path, dst: Path) | Unlink(path: Path)

  type Dir = map<Path, nat>

  /** An inode is named by its place in the list. */
  datatype Image<T> = Image(inodes: seq<Inode<T>>, base: Dir, pending: seq<DirOp>)

  function Apply(d: Dir, op: DirOp): Dir {
    match op
    case Link(p, i) => d[p := i]
    case Move(s, t) => if s in d then (d - {s})[t := d[s]] else d
    case Unlink(p) => d - {p}
  }

  function ApplyAll(d: Dir, ops: seq<DirOp>): Dir {
    if ops == [] then d else Apply(ApplyAll(d, ops[..|ops| - 1]), ops[|ops| - 1])
  }

  /** The directory when only the first `k` pending changes survive. */
  function DirAt<T>(img: Image<T>, k: nat): Dir
    requires k <= |img.pending|
  {
    ApplyAll(img.base, img.pending[..k])
  }

  /** The directory that running processes see. */
  function Live<T>(img: Image<T>): Dir {
    DirAt(img, |img.pending|)
  }

  /** What a crash leaves when it keeps the first `k` pending changes. */
  function Rebooted<T>(img: Image<T>, k: nat): Image<T>
    requires k <= |img.pending|
  {
    Image(img.inodes, DirAt(img, k), [])
  }

  const TEMP_PREFIX := ".liteploy-tmp-"

  /** Names that are given to temporary files and that no reader asks for. */
  predicate IsTemp(p: Path) {
    HasPrefix(p.name, TEMP_PREFIX)
  }

  /* ---- what a reader finds ---- */

  /** A file reads as absent, as some exact contents, or, when it was not synced, as anything. */
  datatype Sight<T> = Absent | Contents(data: Option<T>) | Anything

  function Sees<T>(img: Image<T>, k: nat, p: Path): Sight<T>
    requires k <= |img.pending|
  {
    var d := DirAt(img, k);
    if p !in d then Absent
    else if d[p] < |img.inodes| && img.inodes[d[p]].synced then Contents(img.inodes[d[p]].data)
    else Anything
  }

  ghost predicate Whole<T>(img: Image<T>, i: nat) {
    i < |img.inodes| && img.inodes[i].synced && img.inodes[i].data.Some?
  }

  ghost predicate WholeFiles<T>(img: Image<T>, d: Dir) {
    forall p :: p in d ==> d[p] < |img.inodes| && (!IsTemp(p) ==> Whole(img, d[p]))
  }

  /** After any crash, every file other than a temporary one is whole. */
  ghost predicate Sound<T>(img: Image<T>) {
    forall k :: 0 <= k <= |img.pending| ==> WholeFiles(img, DirAt(img, k))
  }

  function Min(a: nat, b: nat): nat {
    if a < b then a else b
  }

  /** However many directory changes a crash keeps, each file reads as it would have at the start, except
      that with all changes kept the target reads as the new contents when these have `landed`. */
  ghost predicate Shows<T(!new)>(start: Image<T>, now: Image<T>, target: Path, data: T, landed: bool) {
    && |start.pending| <= |now.pending| && (landed ==> |start.pending| < |now.pending|)
    && forall k, p ::
         0 <= k <= |now.pending| && !IsTemp(p) ==>
           Sees(now, k, p) == if landed && k == |now.pending| && p == target then Contents(Some(data))
                              else Sees(start, Min(k, |start.pending|), p)
  }

  /** A crash leaves every file as it was, or the target with exactly the new contents. */
  ghost predicate CrashSafe<T(!new)>(start: Image<T>, now: Image<T>, target: Path, data: T) {
    Shows(start, now, target, data, false) || Shows(start, now, target, data, true)
  }

  /* ---- extending an image ---- */

  lemma DirAtExtended<T>(img: Image<T>, op: DirOp, inodes: seq<Inode<T>>, k: nat)
    requires k <= |img.pending| + 1
    ensures var t := Image(inodes, img.base, img.pending + [op]);
      DirAt(t, k) == if k <= |img.pending| then DirAt(img, k) else Apply(Live(img), op)
  {
    var ops := img.pending + [op];
    if k <= |img.pending| {
      assert ops[..k] == img.pending[..k];
    } else {
      assert ops[..k] == ops;
      assert ops[..|ops| - 1] == img.pending;
      assert img.pending[..|img.pending|] == img.pending;
    }
  }

  /* ---- the write ---- */

  /** Which of the system calls succeed. */
  datatype Faults = Faults(
    create: bool, write: bool, chmod: bool, sync: bool, close: bool, rename: bool, cleanup: bool)

  /** The state of the temporary file while a write is in progress: linked under a name of its own to an
      inode of its own, on top of the directory the write started from. */
  ghost predicate Writing<T>(start: Image<T>, now: Image<T>, tmp: Path) {
    && now.base == start.base && now.pending == start.pending + [Link(tmp, |start.inodes|)]
    && |now.inodes| == |start.inodes| + 1 && start.inodes <= now.inodes
  }

  /** Nothing but the temporary name differs from the start. */
  lemma WritingIsSafe<T(!new)>(start: Image<T>, now: Image<T>, tmp: Path, target: Path, data: T)
    requires Sound(start) && Writing(start, now, tmp) && IsTemp(tmp)
    ensures Shows(start, now, target, data, false) && Sound(now)
    ensures Live(now) == Live(start)[tmp := |start.inodes|]
  {
    hide IsTemp;
    var n := |start.pending|;
    forall k: nat | k <= |now.pending|
      ensures DirAt(now, k) == if k <= n then DirAt(start, k) else Live(start)[tmp := |start.inodes|]
    {
      DirAtExtended(start, Link(tmp, |start.inodes|), now.inodes, k);
    }
  }

  /** The written and synced file renamed onto the target. */
  lemma RenamedIsSafe<T(!new)>(start: Image<T>, now: Image<T>, done: Image<T>, tmp: Path, target: Path, data: T)
    requires Sound(start) && Writing(start, now, tmp) && IsTemp(tmp) && !IsTemp(target) && tmp !in Live(start)
    requires now.inodes[|start.inodes|] == Inode(Some(data), true)
    requires done == Image(now.inodes, now.base, now.pending + [Move(tmp, target)])
    ensures Shows(start, done, target, data, true) && Sound(done)
    ensures Live(done) == Live(start)[target := |start.inodes|]
  {
    hide IsTemp;
    WritingIsSafe(start, now, tmp, target, data);
    forall k: nat | k <= |done.pending|
      ensures DirAt(done, k) == if k <= |now.pending| then DirAt(now, k) else Live(start)[target := |start.inodes|]
    {
      DirAtExtended(now, Move(tmp, target), now.inodes, k);
    }
    LandedShows(start, now, done, target, data);
  }

  lemma LandedShows<T(!new)>(start: Image<T>, now: Image<T>, done: Image<T>, target: Path, data: T)
    requires Sound(start) && Sound(now) && Shows(start, now, target, data, false) && !IsTemp(target)
    requires done.inodes == now.inodes && |done.pending| == |now.pending| + 1 && start.inodes <= now.inodes
    requires |now.inodes| == |start.inodes| + 1 && now.inodes[|start.inodes|] == Inode(Some(data), true)
    requires forall k: nat :: k <= |now.pending| ==> DirAt(done, k) == DirAt(now, k)
    requires Live(done) == Live(start)[target := |start.inodes|]
    ensures Shows(start, done, target, data, true) && Sound(done)
  {
    hide IsTemp, DirAt;
    forall k: nat, p | k <= |done.pending| && !IsTemp(p)
      ensures Sees(done, k, p) == if k == |done.pending| && p == target then Contents(Some(data)) else Sees(start, Min(k, |start.pending|), p)
    {
      if k <= |now.pending| {
        assert Sees(done, k, p) == Sees(now, k, p);
      } else {
        assert DirAt(done, k) == Live(done);
      }
    }
    forall k: nat | k <= |done.pending| ensures WholeFiles(done, DirAt(done, k)) {
      if k <= |now.pending| {
        assert WholeFiles(now, DirAt(now, k));
      } else {
        assert WholeFiles(start, DirAt(start, |start.pending|));
        assert DirAt(done, k) == Live(done);
      }
    }
  }

  /** The temporary file unlinked again after a failure. */
  lemma CleanedIsSafe<T(!new)>(start: Image<T>, now: Image<T>, done: Image<T>, tmp: Path, target: Path, data: T)
    requires Sound(start) && Writing(start, now, tmp) && IsTemp(tmp) && tmp !in Live(start)
    requires done == Image(now.inodes, now.base, now.pending + [Unlink(tmp)])
    ensures Shows(start, done, target, data, false) && Sound(done)
    ensures Live(done) == Live(start)
  {
    hide IsTemp;
    WritingIsSafe(start, now, tmp, target, data);
    forall k: nat | k <= |done.pending|
      ensures DirAt(done, k) == if k <= |now.pending| then DirAt(now, k) else Live(start)
    {
      DirAtExtended(now, Unlink(tmp), now.inodes, k);
    }
  }

  lemma SameShows<T(!new)>(img: Image<T>, target: Path, data: T)
    ensures Shows(img, img, target, data, false)
  {
  }

  /** A file unlinked for good. */
  lemma UnlinkedSight<T(!new)>(img: Image<T>, done: Image<T>, gone: Path)
    requires Sound(img) && done == img.(pending := img.pending + [Unlink(gone)])
    ensures Sound(done)
    ensures forall k: nat, p :: k <= |img.pending| ==> Sees(done, k, p) == Sees(img, k, p)
    ensures forall p :: Sees(done, |done.pending|, p) == if p == gone then Absent else Sees(img, |img.pending|, p)
  {
    hide IsTemp;
    forall k: nat | k <= |done.pending|
      ensures DirAt(done, k) == if k <= |img.pending| then DirAt(img, k) else Live(img) - {gone}
    {
      DirAtExtended(img, Unlink(gone), img.inodes, k);
    }
  }

  /** A crash turns what would survive into what is there. */
  lemma RebootSight<T(!new)>(img: Image<T>, k: nat)
    requires Sound(img) && k <= |img.pending|
    ensures Sound(Rebooted(img, k))
    ensures forall p :: Sees(Rebooted(img, k), 0, p) == Sees(img, k, p)
  {
    var r := Rebooted(img, k);
    assert DirAt(r, 0) == DirAt(img, k);
  }

  /** The disk. `trail` is every state it has been in: a crash may strike in any of them. */
  class Disk<T(!new)> {
    var image: Image<T>
    ghost var trail: seq<Image<T>>

    ghost predicate Valid()
      reads this
    {
      Sound(image)
    }

    constructor (img: Image<T>)
      requires Sound(img)
      ensures Valid() && image == img && trail == [img]
    {
      image := img;
      trail := [img];
    }

    method CreateTemp(tmp: Path) returns (ino: nat)
      modifies this
      ensures ino == |old(image).inodes|
      ensures image == Image(old(image).inodes + [Inode(None, false)], old(image).base, old(image).pending + [Link(tmp, ino)])
      ensures trail == old(trail) + [image]
    {
      ino := |image.inodes|;
      image := Image(image.inodes + [Inode(None, false)], image.base, image.pending + [Link(tmp, ino)]);
      trail := trail + [image];
    }

    /** A failed or interrupted write leaves a partial file. */
    method Write(ino: nat, data: T, ok: bool)
      requires ino < |image.inodes|
      modifies this
      ensures image == old(image).(inodes := old(image).inodes[ino := Inode(if ok then Some(data) else None, false)])
      ensures trail == old(trail) + [image]
    {
      image := image.(inodes := image.inodes[ino := Inode(if ok then Some(data) else None, false)]);
      trail := trail + [image];
    }

    method Sync(ino: nat, ok: bool)
      requires ino < |image.inodes|
      modifies this
      ensures image == old(image).(inodes := old(image).inodes[ino := old(image).inodes[ino].(synced := ok)])
      ensures trail == old(trail) + [image]
    {
      image := image.(inodes := image.inodes[ino := image.inodes[ino].(synced := ok)]);
      trail := trail + [image];
    }

    method Rename(src: Path, dst: Path)
      modifies this
      ensures image == old(image).(pending := old(image).pending + [Move(src, dst)])
      ensures trail == old(trail) + [image]
    {
      image := image.(pending := image.pending + [Move(src, dst)]);
      trail := trail + [image];
    }

    method Remove(p: Path)
      modifies this
      ensures image == old(image).(pending := old(image).pending + [Unlink(p)])
      ensures trail == old(trail) + [image]
    {
      image := image.(pending := image.pending + [Unlink(p)]);
      trail := trail + [image];
    }

    /** Writes through a temporary file. A crash in any state the disk passes through leaves every file as
        it was, or the target with exactly the new contents; and the call reports which of the two it is
        that a reader now finds. No temporary name stays unless removing it failed. */
    method AtomicWrite(target: Path, tmp: Path, data: T, f: Faults) returns (ok: bool)
      requires Valid() && !IsTemp(target) && IsTemp(tmp)
      modifies this
      ensures Valid()
      ensures ok <==> tmp !in Live(old(image)) && f.create && f.write && f.chmod && f.sync && f.close && f.rename
      ensures Shows(old(image), image, target, data, ok)
      ensures ok ==> Live(image) == Live(old(image))[target := |old(image).inodes|]
      ensures !ok && f.cleanup ==> Live(image) == Live(old(image))
      ensures old(trail) <= trail
      ensures forall i :: |old(trail)| <= i < |trail| ==> Sound(trail[i]) && CrashSafe(old(image), trail[i], target, data)
    {
      hide Sound, Shows, IsTemp, Live;
      ghost var start := image;
      if !f.create || tmp in Live(image) {
        SameShows(start, target, data);
        return false;
      }
      var ino := CreateTemp(tmp);
      WritingIsSafe(start, image, tmp, target, data);
      Write(ino, data, f.write);
      WritingIsSafe(start, image, tmp, target, data);
      ok := f.write && f.chmod;
      if ok {
        Sync(ino, f.sync);
        WritingIsSafe(start, image, tmp, target, data);
        ok := f.sync && f.close && f.rename;
      }
      ghost var now := image;
      if ok {
        Rename(tmp, target);
        RenamedIsSafe(start, now, image, tmp, target, data);
      } else if f.cleanup {
        Remove(tmp);
        CleanedIsSafe(start, now, image, tmp, target, data);
      }
    }
  }
}
