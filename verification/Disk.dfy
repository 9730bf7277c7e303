// The directory that holds the recovery journal, as RecoveryJournal sees it through
// openat, write, fsync, renameat and unlinkat, together with what a crash may leave behind.
module Disk {
  import opened Options
  import opened Words

  // A file is synced when fsync succeeded after its last write.
  datatype File = File(data: seq<byte>, synced: bool)

  // Every primitive may fail, unless it is told to obey, and at any primitive the machine may stop: the directory is
  // then dead, and every later primitive fails without effect. A method that runs over such
  // a directory is therefore verified for a crash between any two of its disk operations.
  class Directory {
    var alive: bool
    var main: Option<seq<byte>>   // the snapshot's name
    var next: Option<File>        // the name new snapshots are written under
    var poison: bool              // whether the poison marker exists

    // What a crash may leave under each name: a directory operation is certain to survive
    // only after the directory itself was synced. Contents that were not synced would survive
    // as anything at all, so no file may take the snapshot's name before it is synced.
    ghost var mains: set<Option<seq<byte>>>
    ghost var poisons: set<bool>

    ghost predicate Valid()
      reads this
    {
      main in mains && poison in poisons
    }

    constructor ()
      ensures Valid() && main == None && next == None && !poison
      ensures mains == {None} && poisons == {false}
    {
      alive, main, next, poison := true, None, None, false;
      mains, poisons := {None}, {false};
    }

    // A process starts over this directory, after a crash or a mere restart.
    method Reboot(found: Option<seq<byte>>, marked: bool, orphan: Option<File>)
      requires Valid() && found in mains && marked in poisons
      modifies this
      ensures Valid() && alive && main == found && poison == marked
      ensures mains == old(mains) && poisons == old(poisons)
    {
      alive, main, poison, next := true, found, marked, orphan;
    }

    method UnlinkNext(obey: bool) returns (ok: bool)
      requires Valid()
      modifies this`alive, this`next
      ensures ok ==> next == None
      ensures obey && old(alive) ==> ok && alive
    {
      var works: bool :| obey ==> works;
      ok := alive && works;
      if ok { next := None; } else { alive := *; }
    }

    method CreateNext(obey: bool) returns (ok: bool)
      requires Valid()
      modifies this`alive, this`next
      ensures ok ==> next == Some(File([], false))
      ensures obey && old(alive && next == None) ==> ok && alive
    {
      var works: bool :| obey ==> works;
      ok := alive && works && next == None;
      if ok { next := Some(File([], false)); } else { alive := *; }
    }

    // Appends some non-empty prefix of the data, or fails.
    method Write(data: seq<byte>, obey: bool) returns (count: nat)
      requires Valid() && data != [] && next.Some?
      modifies this`alive, this`next
      ensures count <= |data|
      ensures count > 0 ==> next == Some(File(old(next).value.data + data[..count], false))
      ensures obey && old(alive) ==> count > 0 && alive
    {
      var taken: int :| obey ==> 0 < taken <= |data|;
      count := if alive && 0 <= taken <= |data| then taken else 0;
      if count > 0 {
        next := Some(File(next.value.data + data[..count], false));
      } else {
        alive := *;
      }
    }

    method SyncNext(obey: bool) returns (ok: bool)
      requires Valid() && next.Some?
      modifies this`alive, this`next
      ensures ok ==> next == Some(File(old(next).value.data, true))
      ensures obey && old(alive) ==> ok && alive
    {
      var works: bool :| obey ==> works;
      ok := alive && works;
      if ok { next := Some(next.value.(synced := true)); } else { alive := *; }
    }

    // renameat: atomic, but the machine may stop after the new entry reached the disk.
    method RenameNext(obey: bool) returns (ok: bool, ghost reached: bool)
      requires Valid() && next.Some? && next.value.synced
      modifies this
      ensures Valid() && poison == old(poison) && poisons == old(poisons)
      ensures ok ==> reached
      ensures reached ==> main == Some(old(next).value.data) && mains == old(mains) + {main}
      ensures !reached ==> main == old(main) && mains == old(mains)
      ensures obey && old(alive) ==> ok && alive
    {
      var works: bool :| obey ==> works;
      ok := alive && works;
      var late: bool := *;
      var happened := ok || (alive && late);
      if happened {
        main, next := Some(next.value.data), None;
        mains := mains + {main};
      }
      reached := happened;
      if !ok { alive := *; }
      if happened && !ok { alive := false; }
    }

    // fsync of the directory makes both names certain.
    method SyncDirectory(obey: bool) returns (ok: bool)
      requires Valid()
      modifies this`alive, this`mains, this`poisons
      ensures Valid()
      ensures ok ==> mains == {main} && poisons == {poison}
      ensures !ok ==> mains == old(mains) && poisons == old(poisons)
      ensures obey && old(alive) ==> ok && alive
    {
      var works: bool :| obey ==> works;
      ok := alive && works;
      if ok { mains, poisons := {main}, {poison}; } else { alive := *; }
    }

    // O_CREAT | O_EXCL on the marker, and fsync of the empty file.
    method CreateMarker(obey: bool) returns (ok: bool, ghost reached: bool)
      requires Valid()
      modifies this
      ensures Valid() && main == old(main) && mains == old(mains) && next == old(next)
      ensures ok ==> reached
      ensures reached ==> poison && poisons == old(poisons) + {true}
      ensures !reached ==> poison == old(poison) && poisons == old(poisons)
      ensures obey && old(alive && !poison) ==> ok && alive
    {
      var works: bool :| obey ==> works;
      ok := alive && works && !poison;
      var late: bool := *;
      var happened := ok || (alive && late && !poison);
      if happened {
        poison := true;
        poisons := poisons + {true};
      }
      reached := happened;
      if !ok { alive := *; }
      if happened && !ok { alive := false; }
    }

    method SyncMain(obey: bool) returns (ok: bool)
      requires Valid()
      modifies this`alive
      ensures obey && old(alive) ==> ok && alive
    {
      var works: bool :| obey ==> works;
      ok := alive && works;
      if !ok { alive := *; }
    }
  }
}
