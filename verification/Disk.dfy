/** A filesystem as names, inodes and contents: what a link shares and what a copy does not. */
module Disk {
  import opened Prelude
  import opened JobModel

  type Inode = nat
  type Content = seq<Byte>

  /** The staging root never overlaps a library root, so no file is named in both. */
  datatype Name = InLibrary(file: LibraryPath) | InStaging(path: string)

  /** `next` is the lowest inode number never used. Contents outlive their last name. */
  datatype Fs = Fs(names: map<Name, Inode>, contents: map<Inode, Content>, next: Inode) {

    ghost predicate Valid() {
      && (forall n :: n in names ==> names[n] in contents)
      && (forall i :: i in contents ==> i < next)
    }

    predicate Exists(n: Name) { n in names }

    function Read(n: Name): Content
      requires Valid() && Exists(n)
    {
      contents[names[n]]
    }

    predicate HasSize(n: Name, size: nat)
      requires Valid()
    {
      Exists(n) && |Read(n)| == size
    }

    /** A new inode under a name; an existing name is rebound. */
    function Create(n: Name, content: Content): (fs: Fs)
      requires Valid()
      ensures fs.Valid()
    {
      Fs(names[n := next], contents[next := content], next + 1)
    }

    function Link(n: Name, target: Name): (fs: Fs)
      requires Valid() && Exists(target)
      ensures fs.Valid()
    {
      this.(names := names[n := names[target]])
    }

    function Unlink(n: Name): (fs: Fs)
      requires Valid()
      ensures fs.Valid()
    {
      this.(names := names - {n})
    }

    function UnlinkAll(gone: set<Name>): (fs: Fs)
      requires Valid()
      ensures fs.Valid()
    {
      this.(names := names - gone)
    }

    /** What every name of the inode then reads. */
    function Write(i: Inode, content: Content): (fs: Fs)
      requires Valid() && i in contents
      ensures fs.Valid()
    {
      this.(contents := contents[i := content])
    }
  }

  /** Inside the directory, at any depth. */
  predicate Beneath(path: string, dir: string) { (dir + "/") <= path }

  // ---- What the operations mean to a reader -----------------------------------------------------------

  /** A new file is its own: it reads as written, and every other name as before. */
  lemma CreatedReads(fs: Fs, n: Name, content: Content)
    requires fs.Valid()
    ensures var after := fs.Create(n, content);
            && after.Exists(n) && after.Read(n) == content
            && (forall m :: m != n ==> (after.Exists(m) <==> fs.Exists(m)))
            && (forall m :: m != n && fs.Exists(m) ==>
                  after.Read(m) == fs.Read(m) && after.names[m] == fs.names[m] && after.names[m] != after.names[n])
  {
  }

  /** A link reads as its target, now and after any write through either name. */
  lemma LinkedReads(fs: Fs, n: Name, target: Name, content: Content)
    requires fs.Valid() && fs.Exists(target) && n != target
    ensures var after := fs.Link(n, target);
            && after.Exists(n) && after.Exists(target) && after.Read(n) == after.Read(target) == fs.Read(target)
            && (forall m :: m != n ==> (after.Exists(m) <==> fs.Exists(m)))
            && var written := after.Write(after.names[n], content);
               written.Read(target) == written.Read(n) == content
  {
  }

  /** A write is seen through exactly the names of its inode. */
  lemma WrittenReads(fs: Fs, i: Inode, content: Content, m: Name)
    requires fs.Valid() && i in fs.contents && fs.Exists(m)
    ensures fs.Write(i, content).Exists(m)
    ensures fs.Write(i, content).Read(m) == if fs.names[m] == i then content else fs.Read(m)
  {
  }

  /** Removing names leaves every other, and what it reads. */
  lemma RemovedReads(fs: Fs, gone: set<Name>, m: Name)
    requires fs.Valid()
    ensures fs.UnlinkAll(gone).Exists(m) <==> fs.Exists(m) && m !in gone
    ensures fs.Exists(m) && m !in gone ==> fs.UnlinkAll(gone).Read(m) == fs.Read(m)
    ensures fs.Unlink(m) == fs.UnlinkAll({m})
  {
  }

  /** What is inside a directory is the directory, a separator and some path below. */
  lemma BeneathIs(path: string, dir: string)
    ensures Beneath(path, dir) <==> exists rest :: path == dir + "/" + rest
  {
    if Beneath(path, dir) { assert path == dir + "/" + path[|dir| + 1..]; }
  }
}
