/** How native paths become the names a client knows them by. */
module WatchedPaths {
  const MAX_PATHS := 32
  const MAX_PATH_BYTES := 4096

  /** The components of a path. */
  type Path = seq<string>

  /** Bytes of the components and the separators between them. */
  function OsLen(p: Path): nat {
    if p == [] then 0 else if |p| == 1 then |p[0]| else |p[0]| + 1 + OsLen(p[1..])
  }

  /** A watched directory and the names it was asked for under. */
  datatype Directory = Directory(physical: Path, aliases: seq<Path>)

  /** The path is the directory or a direct child of it. */
  predicate Touches(path: Path, physical: Path) {
    path == physical || (path != [] && path[..|path| - 1] == physical)
  }

  function Suffix(path: Path, physical: Path): Path
    requires Touches(path, physical)
  {
    path[|physical|..]
  }

  /** `name` is what the client is told for a native `path`. */
  ghost predicate IsName(root: Path, directories: seq<Directory>, path: Path, name: Path) {
    || root + name == path
    || exists d, a :: d in directories && a in d.aliases && AliasName(root, d, a, path, name)
  }

  ghost predicate AliasName(root: Path, d: Directory, alias: Path, path: Path, name: Path) {
    && Touches(path, d.physical) && alias != d.physical
    && root + name == alias + Suffix(path, d.physical)
  }

  /** Some name of the path would not fit. */
  ghost predicate Overlong(directories: seq<Directory>, path: Path) {
    exists d :: d in directories && OverlongIn(d, path)
  }

  ghost predicate OverlongIn(d: Directory, path: Path) {
    && Touches(path, d.physical)
    && exists a :: a in d.aliases && a != d.physical && OsLen(a) + OsLen(Suffix(path, d.physical)) + 1 > MAX_PATH_BYTES
  }

  /** What a worker holds after taking a list of native paths in. */
  ghost predicate Gathered(root: Path, directories: seq<Directory>, paths: seq<Path>,
                           pending: set<Path>, overflow: bool, pending': set<Path>, overflow': bool) {
    && pending <= pending' && (overflow ==> overflow')
    && |pending'| <= MAX_PATHS
    && (!overflow' ==> forall i, name :: 0 <= i < |paths| && IsName(root, directories, paths[i], name) ==> name in pending')
    && (forall name :: name in pending' && name !in pending ==> exists i :: 0 <= i < |paths| && IsName(root, directories, paths[i], name))
    && (overflow' ==> || overflow || |pending'| == MAX_PATHS
                      || exists i :: 0 <= i < |paths| && Overlong(directories, paths[i]))
  }

  /** `collect_path`. */
  method CollectPath(root: Path, path: Path, pending: set<Path>, overflow: bool)
    returns (pending': set<Path>, overflow': bool)
    requires |pending| <= MAX_PATHS
    ensures pending <= pending' && |pending| <= |pending'| <= MAX_PATHS
    ensures overflow' <==> overflow || (root <= path && |pending| == MAX_PATHS)
    ensures !overflow' ==> forall name :: root + name == path ==> name in pending'
    ensures forall name :: name in pending' && name !in pending ==> root + name == path
  {
    pending', overflow' := pending, overflow;
    if !(root <= path) {
      return;
    }
    if |pending| >= MAX_PATHS {
      overflow' := true;
      return;
    }
    var relative := path[|root|..];
    assert forall name :: root + name == path ==> name == relative by {
      forall name | root + name == path ensures name == relative { assert (root + name)[|root|..] == name; }
    }
    assert root + relative == path;
    pending' := pending + {relative};
    if relative in pending { assert pending' == pending; }
  }

  /** The aliases of one directory. Returns false when the whole list is given
      up for a resync. */
  method CollectAliases(root: Path, d: Directory, path: Path, pending: set<Path>, overflow: bool)
    returns (pending': set<Path>, overflow': bool, more: bool)
    requires |pending| <= MAX_PATHS && Touches(path, d.physical)
    ensures pending <= pending' && (overflow ==> overflow') && |pending| <= |pending'| <= MAX_PATHS
    ensures overflow' ==> overflow || |pending'| == MAX_PATHS || OverlongIn(d, path)
    ensures !more ==> overflow'
    ensures !overflow' ==> forall a, name :: a in d.aliases && AliasName(root, d, a, path, name) ==> name in pending'
    ensures forall name :: name in pending' && name !in pending ==> exists a :: a in d.aliases && AliasName(root, d, a, path, name)
  {
    pending', overflow', more := pending, overflow, true;
    var suffix := Suffix(path, d.physical);
    for i := 0 to |d.aliases|
      invariant pending <= pending' && (overflow ==> overflow') && |pending'| <= MAX_PATHS
      invariant !overflow' ==> forall k, name :: 0 <= k < i && AliasName(root, d, d.aliases[k], path, name) ==> name in pending'
      invariant forall name :: name in pending' && name !in pending ==> exists a :: a in d.aliases && AliasName(root, d, a, path, name)
      invariant |pending| <= |pending'| && (overflow' ==> overflow || |pending'| == MAX_PATHS)
    {
      var alias := d.aliases[i];
      if alias != d.physical {
        if OsLen(alias) + OsLen(suffix) + 1 > MAX_PATH_BYTES {
          assert OverlongIn(d, path);
          overflow', more := true, false;
          return;
        }
        ghost var before := pending';
        pending', overflow' := CollectPath(root, alias + suffix, pending', overflow');
        assert forall name :: name in pending' && name !in before ==> AliasName(root, d, alias, path, name);
      }
    }
  }

  ghost predicate NamedBelow(root: Path, directories: seq<Directory>, n: nat, path: Path, name: Path)
    requires n <= |directories|
  {
    exists k, a :: 0 <= k < n && a in directories[k].aliases && AliasName(root, directories[k], a, path, name)
  }

  /** One native path: every alias of every directory it touches, then itself. */
  method CollectOne(root: Path, directories: seq<Directory>, path: Path, pending: set<Path>, overflow: bool)
    returns (pending': set<Path>, overflow': bool, more: bool)
    requires |pending| <= MAX_PATHS
    ensures pending <= pending' && (overflow ==> overflow') && |pending| <= |pending'| <= MAX_PATHS
    ensures overflow' ==> overflow || |pending'| == MAX_PATHS || Overlong(directories, path)
    ensures !more ==> overflow'
    ensures !overflow' ==> forall name :: IsName(root, directories, path, name) ==> name in pending'
    ensures forall name :: name in pending' && name !in pending ==> IsName(root, directories, path, name)
  {
    pending', overflow', more := pending, overflow, true;
    for j := 0 to |directories|
      invariant more && pending <= pending' && (overflow ==> overflow') && |pending| <= |pending'| <= MAX_PATHS
      invariant overflow' ==> overflow || |pending'| == MAX_PATHS || Overlong(directories, path)
      invariant !overflow' ==> forall name :: NamedBelow(root, directories, j, path, name) ==> name in pending'
      invariant forall name :: name in pending' && name !in pending ==> IsName(root, directories, path, name)
    {
      if Touches(path, directories[j].physical) {
        pending', overflow', more := CollectAliases(root, directories[j], path, pending', overflow');
        if !more {
          return;
        }
      }
    }
    pending', overflow' := CollectPath(root, path, pending', overflow');
    NamesAreBelow(root, directories, path);
  }

  lemma NamesAreBelow(root: Path, directories: seq<Directory>, path: Path)
    ensures forall name :: IsName(root, directories, path, name) ==>
              root + name == path || NamedBelow(root, directories, |directories|, path, name)
  {
    forall name | IsName(root, directories, path, name) && root + name != path
      ensures NamedBelow(root, directories, |directories|, path, name)
    {
      var d, a :| d in directories && a in d.aliases && AliasName(root, d, a, path, name);
      var k :| 0 <= k < |directories| && directories[k] == d;
    }
  }

  /** `collect_paths`: unless the flag says resync, every name of every path is
      in the set, which holds nothing else and never more than 32. */
  method CollectPaths(root: Path, directories: seq<Directory>, paths: seq<Path>, pending: set<Path>, overflow: bool)
    returns (pending': set<Path>, overflow': bool)
    requires |pending| <= MAX_PATHS
    ensures Gathered(root, directories, paths, pending, overflow, pending', overflow')
  {
    pending', overflow' := pending, overflow;
    for i := 0 to |paths|
      invariant pending <= pending' && (overflow ==> overflow') && |pending'| <= MAX_PATHS
      invariant !overflow' ==>
                  forall k, name :: 0 <= k < i && IsName(root, directories, paths[k], name) ==> name in pending'
      invariant forall name :: name in pending' && name !in pending ==>
                  exists k :: 0 <= k < |paths| && IsName(root, directories, paths[k], name)
      invariant overflow' ==> || overflow || |pending'| == MAX_PATHS
                              || exists k :: 0 <= k < |paths| && Overlong(directories, paths[k])
    {
      var more;
      ghost var before := pending';
      pending', overflow', more := CollectOne(root, directories, paths[i], pending', overflow');
      assert forall name :: name in pending' && name !in before ==> IsName(root, directories, paths[i], name);
      if !more {
        return;
      }
    }
  }

  /** What a client has open under `root + name` it is told of by that name:
      the directory itself, and each of its children, wherever they really are. */
  lemma AliasIsNamed(root: Path, directories: seq<Directory>, d: Directory, name: Path, child: string)
    requires d in directories && root + name in d.aliases
    ensures IsName(root, directories, d.physical, name) && IsName(root, directories, d.physical + [child], name + [child])
  {
    var alias, below := root + name, d.physical + [child];
    assert below[..|below| - 1] == d.physical && Suffix(below, d.physical) == [child];
    assert root + (name + [child]) == alias + [child];
    assert Suffix(d.physical, d.physical) == [] && alias + [] == alias;
    if alias != d.physical {
      assert AliasName(root, d, alias, d.physical, name) && AliasName(root, d, alias, below, name + [child]);
    }
  }
}
