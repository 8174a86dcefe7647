/** From mkfs to the kernel: the image is a file system, and the files given to mkfs are read back from it. */
module Mount {
  import opened Blocks
  import opened Options
  import opened FsLayout
  import opened FsState
  import opened FsContents
  import opened FsFiles
  import opened Fs
  import Mkfs

  /**
   mkfs over a blank image, and the kernel on the result. From the sizes of the files: whether mkfs has
   room for them, and whether the image keeps the invariant of the kernel's code, which wants no hole in a
   file; the image is handed over only then. Inode j + 2 is the j-th file.
   */
  method MakeAndMount(image: Mkfs.Image, dot: seq<byte>, dotdot: seq<byte>, entries: seq<seq<byte>>, files: seq<seq<byte>>)
    returns (made: bool, fs: Option<FileSystem>)
    requires image.Built() && image.freeinode == 1 && |entries| == |files|
    requires |dot| == 16 && |dotdot| == 16 && forall k :: 0 <= k < |entries| ==> |entries[k]| == 16
    modifies image
    ensures made <==> image.Fits(old(image.freeblock), 32, files)
    ensures fs.Some? <==> made && 16 * (2 + |files|) % BSIZE != 0
    ensures made ==> image.Laid() && (fs.Some? <==> HoleFree(image.Home(0)))
    ensures fs.Some? ==> fresh(fs.value) && fs.value.Valid() && Mkfs.HasFiles(fs.value.Now(), files)
  {
    hide Linked, Marked, HoleFree, Mkfs.Good, Contents;
    made := image.Make(dot, dotdot, entries, files);
    if !made || 16 * (2 + |files|) % BSIZE == 0 {
      return made, None;
    }
    var k := new FileSystem(GetSuper(image.blocks[1]), image.blocks, 0, image.owner);   // readsb
    assert k.Now() == image.Home(0);
    fs := Some(k);
  }

  /** ilock and readi of the j-th file give its bytes, the whole of them. */
  method ReadFile(fs: FileSystem, files: seq<seq<byte>>, j: nat) returns (r: IoResult, dst: seq<byte>)
    requires fs.Valid() && Mkfs.HasFiles(fs.Now(), files) && j < |files|
    modifies fs
    ensures r == Done(|files[j]|) && dst == files[j] && fs.Valid() && fs.inum == j + 2
  {
    hide Linked, Marked, HoleFree, Byte, View.Disk, Mapped;
    assert fs.Now().Ino(j + 2).typ == Mkfs.T_FILE && Contents(fs.Now(), j + 2) == files[j];
    var ok := fs.ILock(j + 2);
    assert fs.Now().Ino(j + 2) == fs.ip;
    r, dst := fs.ReadI(0, |files[j]|);
    assert Clip(files[j], 0, |files[j]|) == files[j];
  }
}
