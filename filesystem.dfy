/**
 * The one directory the renamer works in, as `pathlib` and the operating system show it: its children
 * by name and kind, whether it can be listed at all, and which renames the system refuses.
 */
module FileSystem {

  datatype Kind = Dir | File

  /** What `exists()`, `is_dir()` and `iterdir()` report for the directory path itself. */
  datatype Access = Missing | NotADirectory | Unlistable | Listable

  type Entries = map<string, Kind>

  /** `(parent / name).exists()`: a child of that name, or "." and "..", which always exist. */
  predicate PathExists(e: Entries, name: string)
    ensures name in e ==> PathExists(e, name)
    ensures name == "." || name == ".." ==> PathExists(e, name)
    ensures PathExists(e, name) && name != "." && name != ".." ==> name in e
  {
    name in e || name == "." || name == ".."
  }

  /** A rename goes through when the source is there, the system does not refuse it and the target is free. */
  predicate CanRename(e: Entries, refused: set<string>, from: string, to: string) {
    from in e && from !in refused && !PathExists(e, to)
  }

  /** The entry `from` now lives under the name `to`. */
  function Move(e: Entries, from: string, to: string): (r: Entries)
    requires from in e
    ensures to in r && r[to] == e[from] && (from != to ==> from !in r)
    ensures forall k :: k != from && k != to ==> (k in r <==> k in e) && (k in e ==> r[k] == e[k])
  {
    (e - {from})[to := e[from]]
  }

  /** `names` lists every child directory exactly once, and nothing else. */
  predicate IsListing(e: Entries, names: seq<string>) {
    && (forall i, j :: 0 <= i < j < |names| ==> names[i] != names[j])
    && (forall n :: n in names ==> n in e && e[n] == Dir)
    && (forall n :: n in e && e[n] == Dir ==> n in names)
  }

  class Directory {
    const access: Access
    var entries: Entries
    /** The children whose rename the system refuses (permissions, locks, any error it raises). */
    const refused: set<string>

    constructor(access: Access, entries: Entries, refused: set<string>)
      ensures this.access == access && this.entries == entries && this.refused == refused
    {
      this.access := access;
      this.entries := entries;
      this.refused := refused;
    }

    /**
     * `[item for item in base_path.iterdir() if item.is_dir()]`: the child directories in the order the
     * system yields them, or a failure when the directory cannot be listed.
     */
    method ListFolders() returns (listed: bool, names: seq<string>)
      ensures listed <==> access == Listable
      ensures listed ==> IsListing(entries, names)
      ensures !listed ==> names == []
    {
      if access != Listable {
        return false, [];
      }
      var rest := set n | n in entries && entries[n] == Dir;
      names := [];
      while rest != {}
        invariant forall i, j :: 0 <= i < j < |names| ==> names[i] != names[j]
        invariant forall n :: n in names ==> n !in rest
        invariant forall n :: n in names || n in rest <==> n in entries && entries[n] == Dir
        decreases |rest|
      {
        var n :| n in rest;
        names := names + [n];
        rest := rest - {n};
      }
      return true, names;
    }

    /** `(parent / name).exists()` on the directory as it is now. */
    predicate Exists(name: string)
      reads this
      ensures name in entries ==> Exists(name)
      ensures Exists(name) && name != "." && name != ".." ==> name in entries
    {
      PathExists(entries, name)
    }

    /** `folder.rename(parent / to)`: moves the child `from` to the free name `to`, or fails and changes nothing. */
    method Rename(from: string, to: string) returns (ok: bool)
      modifies this
      ensures ok == CanRename(old(entries), refused, from, to)
      ensures entries == if ok then Move(old(entries), from, to) else old(entries)
    {
      ok := from in entries && from !in refused && !(to in entries || to == "." || to == "..");
      if ok {
        entries := (entries - {from})[to := entries[from]];
      }
    }
  }
}
