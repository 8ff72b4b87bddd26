/**
 * The slot store (SaveSystem.cs): one text file per save slot, named `slot_<n>.json`,
 * under the application's persistent data directory.  The file system is modelled as a
 * map from path to file content; a path is present exactly when that file exists.
 * Directories are not modelled (so `Write` creating the directory has no counterpart),
 * and neither are I/O failures.
 */
module SaveSystem {
  import opened Wrappers

  const FilePrefix := "slot_"
  const FileExt := ".json"

  /** The separator `Path.Combine` inserts; '/' on the platforms the game ships for. */
  const DirectorySeparator := '/'

  /** The decimal digit for `d`. */
  function Digit(d: int): (c: char)
    requires 0 <= d < 10
    ensures '0' <= c <= '9'
  {
    ('0' as int + d) as char
  }

  /** The decimal form of a natural number, with no leading zeros. */
  function NatToString(n: nat): (s: string)
    ensures |s| >= 1
    ensures forall i :: 0 <= i < |s| ==> '0' <= s[i] <= '9'
  {
    if n < 10 then [Digit(n)] else NatToString(n / 10) + [Digit(n % 10)]
  }

  /** How C# string interpolation writes an `int`: a minus sign, then the digits. */
  function IntToString(i: int): (s: string)
  {
    if i < 0 then "-" + NatToString(-i) else NatToString(i)
  }

  lemma {:induction false} NatToStringInjective(a: nat, b: nat)
    requires NatToString(a) == NatToString(b)
    ensures a == b
  {
    var sa, sb := NatToString(a), NatToString(b);
    if a < 10 && b < 10 {
      assert sa[0] == Digit(a) && sb[0] == Digit(b);
    } else if a >= 10 && b >= 10 {
      var pa, pb := NatToString(a / 10), NatToString(b / 10);
      assert sa == pa + [Digit(a % 10)] && sb == pb + [Digit(b % 10)];
      assert pa == sa[..|sa| - 1] && pb == sb[..|sb| - 1];
      assert Digit(a % 10) == sa[|sa| - 1];
      assert a % 10 == b % 10;
      NatToStringInjective(a / 10, b / 10);
      assert a == 10 * (a / 10) + a % 10;
    }
  }

  /** The sign of an integer shows in the first character of its decimal form. */
  lemma SignShows(i: int)
    ensures IntToString(i)[0] == '-' <==> i < 0
  {
  }

  /** Distinct integers are written differently. */
  lemma IntToStringInjective(a: int, b: int)
    requires IntToString(a) == IntToString(b)
    ensures a == b
  {
    var sa, sb := IntToString(a), IntToString(b);
    SignShows(a);
    SignShows(b);
    if a < 0 {
      assert sa[1..] == NatToString(-a) && sb[1..] == NatToString(-b);
      NatToStringInjective(-a, -b);
    } else {
      NatToStringInjective(a, b);
    }
  }

  /** `Path.Combine(dir, file)` for a file name that is not rooted. */
  function PathCombine(dir: string, file: string): string
  {
    PathHead(dir) + file
  }

  /** What `Path.Combine(dir, file)` puts in front of `file`. */
  function PathHead(dir: string): string
  {
    if dir == [] then []
    else if dir[|dir| - 1] == DirectorySeparator then dir
    else dir + [DirectorySeparator]
  }

  /** `GetSlotPath(slot)`, with `Application.persistentDataPath` given as `dataDir`. */
  function GetSlotPath(dataDir: string, slot: int): (path: string)
    ensures var file := FilePrefix + IntToString(slot) + FileExt;
      && |path| >= |dataDir| + |file|
      && path[|path| - |file|..] == file
      && path[..|path| - |file|] in {dataDir, dataDir + [DirectorySeparator]}
  {
    var file := FilePrefix + IntToString(slot) + FileExt;
    assert (PathHead(dataDir) + file)[|PathHead(dataDir)|..] == file;
    assert (PathHead(dataDir) + file)[..|PathHead(dataDir)|] == PathHead(dataDir);
    PathCombine(dataDir, file)
  }

  /** Distinct slots live in distinct files, whatever the data directory. */
  lemma SlotPathInjective(dataDir: string, a: int, b: int)
    requires GetSlotPath(dataDir, a) == GetSlotPath(dataDir, b)
    ensures a == b
  {
    var h := PathHead(dataDir);
    var na, nb := IntToString(a), IntToString(b);
    var fa, fb := FilePrefix + na + FileExt, FilePrefix + nb + FileExt;
    assert h + fa == h + fb;
    assert fa == fb by {
      assert (h + fa)[|h|..] == fa && (h + fb)[|h|..] == fb;
    }
    assert na == fa[|FilePrefix|..|fa| - |FileExt|];
    assert nb == fb[|FilePrefix|..|fb| - |FileExt|];
    IntToStringInjective(a, b);
  }

  /** The file system as the slot store sees it: path to content. */
  type Files = map<string, string>

  /** `Read(slot)`: the slot's content, or null (`None`) when its file does not exist. */
  function ReadSlot(files: Files, dataDir: string, slot: int): (r: Option<string>)
    ensures r.Some? <==> GetSlotPath(dataDir, slot) in files
  {
    var path := GetSlotPath(dataDir, slot);
    if path in files then Some(files[path]) else None
  }

  /** The file system after `Write(slot, json)`: `File.WriteAllText` replaces the whole file. */
  function WrittenSlot(files: Files, dataDir: string, slot: int, json: string): (f: Files)
    ensures f.Keys == files.Keys + {GetSlotPath(dataDir, slot)}
  {
    files[GetSlotPath(dataDir, slot) := json]
  }

  /** The file system after `Delete(slot)`: the file is gone if it was there. */
  function DeletedSlot(files: Files, dataDir: string, slot: int): (f: Files)
    ensures f.Keys == files.Keys - {GetSlotPath(dataDir, slot)}
  {
    files - {GetSlotPath(dataDir, slot)}
  }

  /** The store: the data directory and the files under it. */
  class SlotStore {
    const persistentDataPath: string
    var files: Files

    constructor (persistentDataPath: string, files: Files)
      ensures this.persistentDataPath == persistentDataPath && this.files == files
    {
      this.persistentDataPath := persistentDataPath;
      this.files := files;
    }

    method Write(slot: int, json: string)
      modifies this
      ensures files == WrittenSlot(old(files), persistentDataPath, slot, json)
    {
      var path := GetSlotPath(persistentDataPath, slot);
      files := files[path := json];
    }

    method Read(slot: int) returns (r: Option<string>)
      ensures r == ReadSlot(files, persistentDataPath, slot)
    {
      var path := GetSlotPath(persistentDataPath, slot);
      if path in files {
        r := Some(files[path]);
      } else {
        r := None;
      }
    }

    method Exists(slot: int) returns (b: bool)
      ensures b <==> ReadSlot(files, persistentDataPath, slot).Some?
    {
      b := GetSlotPath(persistentDataPath, slot) in files;
    }

    method Delete(slot: int)
      modifies this
      ensures files == DeletedSlot(old(files), persistentDataPath, slot)
    {
      var path := GetSlotPath(persistentDataPath, slot);
      if path in files {
        files := files - {path};
      }
    }
  }

  /** `Read` after `Write(slot, json)` gives back exactly `json`. */
  lemma ReadAfterWrite(files: Files, dataDir: string, slot: int, json: string)
    ensures ReadSlot(WrittenSlot(files, dataDir, slot, json), dataDir, slot) == Some(json)
  {
  }

  /** A second write replaces the first entirely: nothing of the earlier content survives. */
  lemma SecondWriteReplaces(files: Files, dataDir: string, slot: int, first: string, second: string)
    ensures WrittenSlot(WrittenSlot(files, dataDir, slot, first), dataDir, slot, second)
         == WrittenSlot(files, dataDir, slot, second)
  {
  }

  /** After `Delete` the slot reads as empty; deleting an empty slot changes nothing. */
  lemma DeleteEmpties(files: Files, dataDir: string, slot: int)
    ensures ReadSlot(DeletedSlot(files, dataDir, slot), dataDir, slot) == None
    ensures ReadSlot(files, dataDir, slot) == None ==> DeletedSlot(files, dataDir, slot) == files
  {
  }

  /** Writing or deleting one slot leaves every other slot's content as it was. */
  lemma OtherSlotsUntouched(files: Files, dataDir: string, slot: int, other: int, json: string)
    requires other != slot
    ensures ReadSlot(WrittenSlot(files, dataDir, slot, json), dataDir, other) == ReadSlot(files, dataDir, other)
    ensures ReadSlot(DeletedSlot(files, dataDir, slot), dataDir, other) == ReadSlot(files, dataDir, other)
  {
    if GetSlotPath(dataDir, slot) == GetSlotPath(dataDir, other) {
      SlotPathInjective(dataDir, slot, other);
    }
  }
}
