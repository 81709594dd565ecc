/** The disk as the scaffolding code sees it: the paths that exist, which
    of them are regular files and, for the files it wrote itself, their
    text. Paths are strings joined with `/`; no normalisation. */
module FileSystem {
  import opened Wrappers
  import opened Strings

  /** `path.join(a, b)` without normalisation. */
  function PathJoin(a: string, b: string): string {
    a + "/" + b
  }

  /** `q` is `p` itself or lies somewhere below it. */
  predicate AtOrUnder(q: string, p: string) {
    q == p || StartsWith(q, p + "/")
  }

  /** The error `fs.readdirSync(p)` throws when `p` does not exist. */
  function NoSuchDirectory(p: string): string {
    "ENOENT: no such file or directory, scandir '" + p + "'"
  }

  /** The error `fs.readdirSync(p)` throws when `p` is a regular file. */
  function NotADirectory(p: string): string {
    "ENOTDIR: not a directory, scandir '" + p + "'"
  }

  /** `entries` are the paths that exist; those of them in `files` are
      regular files, the others directories. */
  datatype Disk = Disk(entries: set<string>, files: set<string>, contents: map<string, string>) {

    predicate Exists(p: string) {
      p in entries
    }

    predicate IsFile(p: string) {
      p in entries && p in files
    }

    /** Something lies below `p`. */
    predicate HasChildren(p: string) {
      exists q :: q in entries && StartsWith(q, p + "/")
    }

    /** `fs.readdirSync(p).length > 0`: whether the directory `p` lists
        anything; it throws when `p` is missing or is a regular file. */
    function ReadDirNonEmpty(p: string): (r: Result<bool, string>)
      ensures r.Err? <==> !Exists(p) || IsFile(p)
      ensures r.Err? && Exists(p) ==> r.error == NotADirectory(p)
      ensures r.Ok? ==> (r.value <==> HasChildren(p))
    {
      if !Exists(p) then Err(NoSuchDirectory(p))
      else if IsFile(p) then Err(NotADirectory(p))
      else Ok(HasChildren(p))
    }

    function MakeDir(p: string): Disk {
      Disk(entries + {p}, files - {p}, contents)
    }

    /** A file whose bytes the model does not know (a download). */
    function Touch(p: string): Disk {
      Disk(entries + {p}, files + {p}, contents - {p})
    }

    function WriteFile(p: string, text: string): Disk {
      Disk(entries + {p}, files + {p}, contents[p := text])
    }

    /** Entries whose kind and bytes the model does not know (an extracted
        archive); they are not counted as regular files. */
    function AddAll(ps: set<string>): Disk {
      Disk(entries + ps, files - ps, contents - ps)
    }

    /** `rimraf(p)`: `p` and everything below it disappear. */
    function RemoveTree(p: string): (d: Disk)
      ensures forall q :: q in d.entries <==> q in entries && !AtOrUnder(q, p)
      ensures forall q :: q in d.files <==> q in files && !AtOrUnder(q, p)
      ensures forall q :: q in d.contents <==> q in contents && !AtOrUnder(q, p)
      ensures forall q :: q in d.contents ==> d.contents[q] == contents[q]
    {
      Disk(set q | q in entries && !AtOrUnder(q, p),
           set q | q in files && !AtOrUnder(q, p),
           map q | q in contents && !AtOrUnder(q, p) :: contents[q])
    }

    /** Removes each tree in `targets`, in order. */
    function RemoveTrees(targets: seq<string>): Disk {
      if targets == [] then this
      else RemoveTrees(targets[..|targets| - 1]).RemoveTree(targets[|targets| - 1])
    }
  }

  /** The removed trees are exactly those named: an entry survives iff it
      lies at or under none of the targets, and known contents survive
      unchanged. */
  lemma {:induction false} RemoveTreesExactly(d: Disk, targets: seq<string>)
    ensures forall q :: q in d.RemoveTrees(targets).entries <==>
      q in d.entries && forall t :: t in targets ==> !AtOrUnder(q, t)
    ensures forall q :: q in d.RemoveTrees(targets).contents ==>
      q in d.contents && d.RemoveTrees(targets).contents[q] == d.contents[q]
    ensures forall q :: q in d.contents && (forall t :: t in targets ==> !AtOrUnder(q, t)) ==>
      q in d.RemoveTrees(targets).contents
  {
    if targets != [] {
      var init := targets[..|targets| - 1];
      RemoveTreesExactly(d, init);
      assert forall t :: t in targets <==> t in init || t == targets[|targets| - 1];
    }
  }

  /** The mutable disk. */
  class Fs {
    var entries: set<string>
    var files: set<string>
    var contents: map<string, string>

    function Snapshot(): Disk
      reads this
    {
      Disk(entries, files, contents)
    }

    constructor (d: Disk)
      ensures Snapshot() == d
    {
      entries, files, contents := d.entries, d.files, d.contents;
    }

    /** `fs.existsSync(p)` */
    predicate Exists(p: string)
      reads this
    {
      Snapshot().Exists(p)
    }

    /** `fs.readdirSync(p).length > 0` */
    function ReadDirNonEmpty(p: string): Result<bool, string>
      reads this
    {
      Snapshot().ReadDirNonEmpty(p)
    }

    method MakeDir(p: string)
      modifies this
      ensures Snapshot() == old(Snapshot()).MakeDir(p)
    {
      entries, files := entries + {p}, files - {p};
    }

    method Touch(p: string)
      modifies this
      ensures Snapshot() == old(Snapshot()).Touch(p)
    {
      entries, files, contents := entries + {p}, files + {p}, contents - {p};
    }

    /** `fs.writeFileSync(p, text)` */
    method WriteFile(p: string, text: string)
      modifies this
      ensures Snapshot() == old(Snapshot()).WriteFile(p, text)
    {
      entries, files, contents := entries + {p}, files + {p}, contents[p := text];
    }

    method AddAll(ps: set<string>)
      modifies this
      ensures Snapshot() == old(Snapshot()).AddAll(ps)
    {
      entries, files, contents := entries + ps, files - ps, contents - ps;
    }

    /** `rimraf(p)` */
    method RemoveTree(p: string)
      modifies this
      ensures Snapshot() == old(Snapshot()).RemoveTree(p)
    {
      entries := set q | q in entries && !AtOrUnder(q, p);
      files := set q | q in files && !AtOrUnder(q, p);
      contents := map q | q in contents && !AtOrUnder(q, p) :: contents[q];
    }
  }
}
