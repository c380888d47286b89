/**
 * `clean`: deletes every entry of the project directory whose name is not
 * in `CLEAN_IGNORE`, or in dry-run mode only reports them. The directory is
 * an object whose table of entries the method updates in place. The skip
 * list is a parameter; the script always passes `CLEAN_IGNORE`.
 */
module Cleaning {
  import opened Exclusions
  import Conf

  /**
   * What `is_file`, `is_dir` and `is_symlink` can tell about an entry;
   * `Special` is anything else (a FIFO, a socket, a device node).
   */
  datatype EntryKind = File | Dir | Symlink | Special

  /** The current directory: entry names and their kinds. */
  class WorkingDir {
    var entries: map<string, EntryKind>

    constructor (entries: map<string, EntryKind>)
      ensures this.entries == entries
    {
      this.entries := entries;
    }
  }

  /** One of the three kinds `clean` knows how to delete. */
  predicate Removable(kind: EntryKind)
  {
    kind == File || kind == Dir || kind == Symlink
  }

  /** One step of a live run: the entry named is deleted if present, not skipped and removable. */
  function CleanStep(entries: map<string, EntryKind>, name: string, ignore: seq<string>): (r: map<string, EntryKind>)
    ensures forall n :: n != name ==> (n in r <==> n in entries)
    ensures name in entries && name !in r ==> name !in ignore && Removable(entries[name])
    ensures name in entries && name !in ignore && Removable(entries[name]) ==> name !in r
    ensures forall n :: n in r ==> n in entries && r[n] == entries[n]
  {
    if name !in ignore && name in entries && Removable(entries[name]) then entries - {name} else entries
  }

  /** The directory after a live run has walked `listing` in order. */
  function Walk(entries: map<string, EntryKind>, listing: seq<string>, ignore: seq<string>): (r: map<string, EntryKind>)
    ensures r.Keys <= entries.Keys
    ensures forall n :: n in r ==> r[n] == entries[n]
  {
    if listing == [] then entries
    else CleanStep(Walk(entries, listing[..|listing| - 1], ignore), listing[|listing| - 1], ignore)
  }

  /** The directory after `clean`: unchanged on a dry run, walked otherwise. */
  function AfterClean(entries: map<string, EntryKind>, listing: seq<string>, ignore: seq<string>, dryrun: bool): (r: map<string, EntryKind>)
    ensures r.Keys <= entries.Keys
    ensures forall n :: n in r ==> r[n] == entries[n]
  {
    if dryrun then entries else Walk(entries, listing, ignore)
  }

  /**
   * A live run keeps an entry exactly when it is not listed, is skipped, or
   * is of a kind it cannot delete: the order of the listing does not matter.
   */
  lemma {:induction false} WalkKeeps(entries: map<string, EntryKind>, listing: seq<string>, ignore: seq<string>, n: string)
    ensures n in Walk(entries, listing, ignore)
        <==> n in entries && (n !in listing || n in ignore || !Removable(entries[n]))
  {
    if listing != [] {
      var init := listing[..|listing| - 1];
      WalkKeeps(entries, init, ignore, n);
      assert listing == init + [listing[|listing| - 1]];
    }
  }

  /**
   * The names `clean` prints: the non-ignored entries, in listing order.
   * The length bound is only a sanity fact; which names are printed is
   * stated by `ReportedExactly`.
   */
  function Reported(listing: seq<string>, ignore: seq<string>): (r: seq<string>)
    ensures |r| <= |listing|
  {
    if listing == [] then []
    else
      var last := listing[|listing| - 1];
      Reported(listing[..|listing| - 1], ignore) + (if last in ignore then [] else [last])
  }

  /** A name is reported exactly when it was listed and is not ignored. */
  lemma {:induction false} ReportedExactly(listing: seq<string>, ignore: seq<string>, name: string)
    ensures name in Reported(listing, ignore) <==> name in listing && name !in ignore
  {
    if listing != [] {
      var init := listing[..|listing| - 1];
      ReportedExactly(init, ignore, name);
      assert listing == init + [listing[|listing| - 1]];
    }
  }

  /**
   * Deletes one entry the way `clean` does: a file is unlinked, a directory
   * removed recursively, a symbolic link unlinked; anything else stays.
   */
  method RemoveEntry(dir: WorkingDir, name: string)
    modifies dir
    ensures dir.entries
         == if name in old(dir.entries) && Removable(old(dir.entries)[name])
            then old(dir.entries) - {name} else old(dir.entries)
  {
    if name in dir.entries && dir.entries[name] == File {
      dir.entries := dir.entries - {name};
    }
    if name in dir.entries && dir.entries[name] == Dir {
      dir.entries := dir.entries - {name};
    }
    if name in dir.entries && dir.entries[name] == Symlink {
      dir.entries := dir.entries - {name};
    }
  }

  /**
   * `clean`: walks the listing; skips ignored names, prints the rest and,
   * unless it is a dry run, deletes each file, directory or symbolic link.
   */
  method Clean(dir: WorkingDir, listing: seq<string>, ignore: seq<string>, dryrun: bool) returns (reported: seq<string>)
    modifies dir
    ensures dir.entries == AfterClean(old(dir.entries), listing, ignore, dryrun)
    ensures reported == Reported(listing, ignore)
  {
    ghost var start := dir.entries;
    reported := [];
    var i := 0;
    while i < |listing|
      invariant 0 <= i <= |listing|
      invariant dir.entries == if dryrun then start else Walk(start, listing[..i], ignore)
      invariant reported == Reported(listing[..i], ignore)
    {
      var name := listing[i];
      assert listing[..i + 1] == listing[..i] + [name];
      if name !in ignore {
        reported := reported + [name];
        if !dryrun {
          RemoveEntry(dir, name);
        }
      }
      i := i + 1;
    }
    assert listing[..i] == listing;
  }

  /** The entries a live run over `listing` deletes. */
  function Doomed(entries: map<string, EntryKind>, listing: seq<string>, ignore: seq<string>): set<string>
  {
    set n | n in entries && n in listing && n !in ignore && Removable(entries[n])
  }

  /** A live run removes exactly the doomed entries and leaves the rest as they were. */
  lemma WalkRemovesDoomed(entries: map<string, EntryKind>, listing: seq<string>, ignore: seq<string>)
    ensures Walk(entries, listing, ignore) == entries - Doomed(entries, listing, ignore)
  {
    var w := Walk(entries, listing, ignore);
    forall n
      ensures n in w <==> n in entries - Doomed(entries, listing, ignore)
    {
      WalkKeeps(entries, listing, ignore, n);
    }
    assert w.Keys == (entries - Doomed(entries, listing, ignore)).Keys;
  }

  /** Nothing on the skip list is deleted, in either mode. */
  lemma CleanKeepsIgnored(entries: map<string, EntryKind>, listing: seq<string>, ignore: seq<string>, dryrun: bool)
    ensures forall n :: n in entries && n in ignore ==>
      n in AfterClean(entries, listing, ignore, dryrun) && AfterClean(entries, listing, ignore, dryrun)[n] == entries[n]
  {
    forall n | n in entries && n in ignore
      ensures n in AfterClean(entries, listing, ignore, dryrun)
    {
      WalkKeeps(entries, listing, ignore, n);
    }
  }

  /** A dry run leaves the directory exactly as it was. */
  lemma DryRunKeepsAll(entries: map<string, EntryKind>, listing: seq<string>, ignore: seq<string>)
    ensures AfterClean(entries, listing, ignore, true) == entries
  {
  }

  /**
   * A live run over a listing of the whole directory leaves exactly the
   * ignored entries and those of a kind it cannot delete.
   */
  lemma LiveCleanLeavesOnlyKept(entries: map<string, EntryKind>, listing: seq<string>, ignore: seq<string>)
    requires forall n :: n in entries ==> n in listing
    ensures forall n ::
      (n in AfterClean(entries, listing, ignore, false) <==> n in entries && (n in ignore || entries[n] == Special))
  {
    forall n
      ensures n in AfterClean(entries, listing, ignore, false) <==> n in entries && (n in ignore || entries[n] == Special)
    {
      WalkKeeps(entries, listing, ignore, n);
    }
  }

  /** Every entry a live run deletes is one that is reported, so a dry run announces all of them. */
  lemma DeletedAreReported(entries: map<string, EntryKind>, listing: seq<string>, ignore: seq<string>)
    ensures forall n :: n in Doomed(entries, listing, ignore) ==> n in Reported(listing, ignore)
  {
    forall n | n in Doomed(entries, listing, ignore)
      ensures n in Reported(listing, ignore)
    {
      ReportedExactly(listing, ignore, n);
    }
  }

  /**
   * With the script's own skip list, the configuration file, the
   * `.gitignore` and the README survive any clean.
   */
  lemma CleanKeepsBootstrap(entries: map<string, EntryKind>, listing: seq<string>, dryrun: bool)
    ensures forall n :: n in entries && n in [Conf.ConfPath, ".gitignore", "README.md"] ==>
      n in AfterClean(entries, listing, CleanIgnore, dryrun)
  {
    CleanIgnoreValue();
    CleanKeepsIgnored(entries, listing, CleanIgnore, dryrun);
  }
}
