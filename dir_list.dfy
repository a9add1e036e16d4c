/** The bookmark list of src/dir_list.c: a growable array of items, each
    holding one directory name, with a count of used slots and a capacity. */
module DirList {
  import opened Basics
  import opened ListFile

  /** The capacity the first growth step allocates. */
  const MIN_DIR_SIZE: nat := 100

  datatype DirListItem = DirListItem(dirName: string)

  function Names(items: seq<DirListItem>): (r: seq<string>)
    ensures |r| == |items|
    ensures forall k :: 0 <= k < |items| ==> r[k] == items[k].dirName
  {
    seq(|items|, k requires 0 <= k < |items| => items[k].dirName)
  }

  /** What dump_dir_list and list_dirs print when handed a NULL list, or
      what they print for a real one. */
  datatype Output<T> = EmptyDirlistStructure | Output(body: T)

  /** The colour dump_dir_list gives an entry. */
  datatype Colour = Red | Green | Grey | Reset

  function DumpColour(kind: PathKind): Colour
  {
    match kind
    case Missing => Grey
    case StatFailed => Reset
    case Directory => Green
    case NotDirectory => Red
  }

  /** One line "[index] <colour>dir<reset>" of the dump. */
  datatype DumpLine = DumpLine(index: nat, colour: Colour, dir: string)

  /** The header "Dirlist has <count> entries of <size> used", then the lines. */
  datatype Dump = Dump(count: nat, size: nat, lines: seq<DumpLine>)

  class DirListS {
    var dirCount: nat
    var dirList: array?<DirListItem>
    var dirSize: nat

    /** The capacity is 0 (no array yet) or MIN_DIR_SIZE, the array has
        exactly that many slots, and no more of them are used. */
    ghost predicate Valid()
      reads this
    {
      && (dirSize == 0 || dirSize == MIN_DIR_SIZE)
      && (dirList == null <==> dirSize == 0)
      && (dirList != null ==> dirList.Length == dirSize)
      && dirCount <= dirSize
    }

    /** The used slots, in index order. */
    ghost function Items(): seq<DirListItem>
      reads this, dirList
      requires Valid()
    {
      if dirList == null then [] else dirList[..dirCount]
    }

    ghost function Dirs(): seq<string>
      reads this, dirList
      requires Valid()
    {
      Names(Items())
    }

    /** new_dir_list: no entries, no capacity, no array. */
    constructor ()
      ensures Valid()
      ensures dirCount == 0 && dirSize == 0 && dirList == null
      ensures Items() == []
    {
      dirCount := 0;
      dirList := null;
      dirSize := 0;
    }

    /** increase_dir_alloc: a capacity of 0 becomes MIN_DIR_SIZE, any other
        capacity is kept; the array is reallocated to the capacity, keeping
        the used slots. */
    method IncreaseDirAlloc()
      requires Valid()
      modifies this
      ensures Valid() && fresh(dirList)
      ensures dirSize == if old(dirSize) == 0 then MIN_DIR_SIZE else old(dirSize)
      ensures dirCount == old(dirCount)
      ensures Items() == old(Items())
    {
      var previous := dirList;
      if dirSize == 0 {
        dirSize := dirSize + MIN_DIR_SIZE;
      }
      var grown := new DirListItem[dirSize];
      forall k | 0 <= k < dirCount {
        grown[k] := previous[k];
      }
      dirList := grown;
      assert dirList[..dirCount] == if previous == null then [] else previous[..dirCount];
    }

    /** add_dir: appends p_dir as the last entry and returns 1. Growth only
        ever reaches MIN_DIR_SIZE slots, so the list must not be full. */
    method AddDir(pDir: string) returns (ok: bool)
      requires Valid()
      requires dirCount < MIN_DIR_SIZE
      modifies this, dirList
      ensures Valid() && ok
      ensures dirList == old(dirList) || fresh(dirList)
      ensures dirCount == old(dirCount) + 1 && dirSize == MIN_DIR_SIZE
      ensures Items() == old(Items()) + [DirListItem(pDir)]
    {
      if dirCount == dirSize {
        IncreaseDirAlloc();
      }
      dirList[dirCount] := DirListItem(pDir);
      dirCount := dirCount + 1;
      ok := true;
    }

    /** find_dir_location: the lowest index whose entry equals p_dir; when
        there is none, *p_loc (here loc0) is left as it was. */
    method FindDirLocation(pDir: string, loc0: nat) returns (found: bool, loc: nat)
      requires Valid()
      ensures found <==> pDir in Dirs()
      ensures found ==> IsFirstIndex(Dirs(), pDir, loc)
      ensures !found ==> loc == loc0
    {
      found, loc := false, loc0;
      var dirLoop := 0;
      while dirLoop < dirCount
        invariant dirLoop <= dirCount
        invariant forall k :: 0 <= k < dirLoop ==> Dirs()[k] != pDir
        invariant loc == loc0
      {
        if pDir == dirList[dirLoop].dirName {
          found, loc := true, dirLoop;
          break;
        }
        dirLoop := dirLoop + 1;
      }
    }

    /** remove_dir_by_index: an index past the end changes nothing and gives
        0; otherwise the entry goes and the later ones move down one slot. */
    method RemoveDirByIndex(pDir: nat) returns (ok: bool)
      requires Valid()
      modifies this, dirList
      ensures Valid() && dirList == old(dirList) && dirSize == old(dirSize)
      ensures ok <==> pDir < old(dirCount)
      ensures ok ==> dirCount == old(dirCount) - 1 && Items() == RemoveAt(old(Items()), pDir)
      ensures !ok ==> dirCount == old(dirCount) && Items() == old(Items())
    {
      if pDir < dirCount {
        dirCount := dirCount - 1;
        // memmove: every moved slot reads its source before any is written
        forall k | pDir <= k < dirCount {
          dirList[k] := dirList[k + 1];
        }
        ok := true;
      } else {
        ok := false;
      }
    }

    /** remove_dir: removes the first entry equal to p_dir and gives 1, or
        gives 0 and changes nothing when no entry matches. */
    method RemoveDir(pDir: string) returns (ok: bool)
      requires Valid()
      modifies this, dirList
      ensures Valid() && dirList == old(dirList)
      ensures ok <==> pDir in old(Dirs())
      ensures ok ==> Items() == RemoveAt(old(Items()), FirstIndex(old(Dirs()), pDir).value)
      ensures !ok ==> Items() == old(Items())
    {
      ok := false;
      var found, location := FindDirLocation(pDir, 0);
      if found {
        FirstIndexUnique(Dirs(), pDir, location, FirstIndex(Dirs(), pDir).value);
        ok := RemoveDirByIndex(location);
      }
    }

    /** dir_in_list: whether some entry equals p_dir. */
    method DirInList(pDir: string) returns (r: bool)
      requires Valid()
      ensures r <==> pDir in Dirs()
    {
      var loc;
      r, loc := FindDirLocation(pDir, 0);
    }

    /** save_dir_list, given whether fopen succeeded: returns 1 iff it did,
        and what it writes, line by line. */
    method SaveDirList(canOpen: bool) returns (ok: bool, written: seq<string>)
      requires Valid()
      ensures ok == canOpen
      ensures written == if canOpen then SavedLines(Dirs()) else []
    {
      ok, written := false, [];
      if canOpen {
        written := [FILE_HEADER_DESC_STRING + "\n", FILE_HEADER_VER_STRING + "\n"];
        var dirLoop := 0;
        while dirLoop < dirCount
          invariant dirLoop <= dirCount
          invariant written == SavedLines(Dirs()[..dirLoop])
        {
          assert Dirs()[..dirLoop + 1][..dirLoop] == Dirs()[..dirLoop];
          written := written + [dirList[dirLoop].dirName + "\n"];
          dirLoop := dirLoop + 1;
        }
        assert Dirs()[..dirCount] == Dirs();
        ok := true;
      }
    }
  }

  /** The body of the read loop of load_dir_list for one line: a comment
      line is skipped, any other is cut at its first NUL, trimmed and
      appended. */
  method LoadLine(list: DirListS, path: string)
    requires list.Valid() && |path| > 0 && path[0] != '\0'
    requires |list.Dirs()| + |LineEntry(path)| <= MIN_DIR_SIZE
    modifies list, list.dirList
    ensures list.Valid() && list.Dirs() == old(list.Dirs()) + LineEntry(path)
    ensures list.dirList == old(list.dirList) || fresh(list.dirList)
  {
    if path[0] != '#' {
      var cut := path[..CLength(path)];
      var len := TrimEolLength(cut);
      var _ := list.AddDir(cut[..len]);
    }
  }

  /** The read loop of load_dir_list over the lines of an opened file: a
      new list of the non-comment lines, trimmed, in file order. */
  method LoadLines(lines: seq<string>) returns (list: DirListS)
    requires NonEmptyLines(lines) && |LoadEntries(lines)| <= MIN_DIR_SIZE
    ensures fresh(list) && list.Valid() && list.Dirs() == LoadEntries(lines)
  {
    list := new DirListS();
    var i := 0;
    ghost var seen: seq<string> := [];
    while i < |lines|
      invariant i <= |lines| && seen == lines[..i] && NonEmptyLines(seen)
      invariant fresh(list) && list.Valid()
      invariant list.dirList != null ==> fresh(list.dirList)
      invariant list.Dirs() == LoadEntries(seen)
    {
      LoadEntriesNext(lines, i);
      LoadLine(list, lines[i]);
      seen := lines[..i + 1];
      i := i + 1;
    }
    assert seen == lines;
  }

  /** load_dir_list, given the lines fgets reads or None when fopen fails:
      NULL exactly when the file cannot be opened, otherwise a new list of
      the non-comment lines, each cut at its first NUL and trimmed, in file
      order. */
  method LoadDirList(file: Option<seq<string>>) returns (list: DirListS?)
    requires file.Some? ==> FgetsLines(file.value) && NonEmptyLines(file.value)
    requires file.Some? ==> |LoadEntries(file.value)| <= MIN_DIR_SIZE
    ensures list == null <==> file.None?
    ensures list != null ==> fresh(list) && list.Valid() && list.Dirs() == LoadEntries(file.value)
  {
    list := null;
    if file.Some? {
      list := LoadLines(file.value);
    }
  }

  /** list_dirs, given the stat oracle: prints the entries in order while
      they are directories; once one is not, it and every later entry are
      suppressed. */
  method ListDirs(list: DirListS?, classify: string -> PathKind) returns (out: Output<seq<string>>)
    requires list != null ==> list.Valid()
    ensures out.EmptyDirlistStructure? <==> list == null
    ensures list != null ==>
      var dirs, shown := list.Dirs(), out.body;
      && |shown| <= |dirs| && shown == dirs[..|shown|]
      && (forall k :: 0 <= k < |shown| ==> classify(dirs[k]) == Directory)
      && (|shown| < |dirs| ==> classify(dirs[|shown|]) != Directory)
  {
    if list == null {
      out := EmptyDirlistStructure;
    } else {
      ghost var dirs := list.Dirs();
      var shown: seq<string> := [];
      var valid := true;
      var dirLoop := 0;
      while dirLoop < list.dirCount
        invariant dirLoop <= list.dirCount
        invariant |shown| <= dirLoop && shown == dirs[..|shown|]
        invariant forall k :: 0 <= k < |shown| ==> classify(dirs[k]) == Directory
        invariant valid <==> |shown| == dirLoop
        invariant !valid ==> classify(dirs[|shown|]) != Directory
      {
        var dir := list.dirList[dirLoop].dirName;
        var kind := classify(dir);
        if kind == Missing || kind == StatFailed {
          valid := false;
        } else if kind != Directory {
          valid := false;
        }
        if valid {
          shown := shown + [dir];
        }
        dirLoop := dirLoop + 1;
      }
      out := Output(shown);
    }
  }

  /** dump_dir_list, given the stat oracle: the header with count and
      capacity, then every entry with its index and colour. */
  method DumpDirList(list: DirListS?, classify: string -> PathKind) returns (out: Output<Dump>)
    requires list != null ==> list.Valid()
    ensures out.EmptyDirlistStructure? <==> list == null
    ensures list != null ==>
      var dirs, dump := list.Dirs(), out.body;
      && dump.count == |dirs| && dump.size == list.dirSize && |dump.lines| == |dirs|
      && forall k :: 0 <= k < |dirs| ==>
           dump.lines[k] == DumpLine(k, DumpColour(classify(dirs[k])), dirs[k])
  {
    if list == null {
      out := EmptyDirlistStructure;
    } else {
      ghost var dirs := list.Dirs();
      var lines: seq<DumpLine> := [];
      var dirLoop := 0;
      while dirLoop < list.dirCount
        invariant dirLoop <= list.dirCount && |lines| == dirLoop
        invariant forall k :: 0 <= k < dirLoop ==>
                    lines[k] == DumpLine(k, DumpColour(classify(dirs[k])), dirs[k])
      {
        var col := Reset;
        var dir := list.dirList[dirLoop].dirName;
        var kind := classify(dir);
        if kind == Missing || kind == StatFailed {
          if kind == Missing {
            col := Grey;
          }
        } else {
          if kind == Directory {
            col := Green;
          } else {
            col := Red;
          }
        }
        lines := lines + [DumpLine(dirLoop, col, dir)];
        dirLoop := dirLoop + 1;
      }
      out := Output(Dump(list.dirCount, list.dirSize, lines));
    }
  }
}
