/** The bookmark list of the older top-level dir_list.c: the same
    count/capacity scheme as the newer revision, but over a plain array of
    strings, and without removal or list_dirs. */
module LegacyDirList {
  import opened Basics
  import opened ListFile
  import opened DirList

  /** This revision swaps red and grey with respect to the newer one; the
      capacity, the output shapes and the colours themselves are shared. */
  function DumpColour(kind: PathKind): Colour
  {
    match kind
    case Missing => Red
    case StatFailed => Reset
    case Directory => Green
    case NotDirectory => Grey
  }

  class DirListS {
    var dirCount: nat
    var dirList: array?<string>
    var dirSize: nat

    /** The capacity is 0 (no array yet) or MIN_DIR_SIZE, the array has
        exactly that many slots, and no more of them are used. */
    ghost predicate Valid()
      reads this
    {
      && (dirSize == 0 || dirSize == MIN_DIR_SIZE)
      && (dirList == null <==> dirSize == 0)
      && (dirList != null ==> dirList.Length == dirSize)
      && dirCount <= dirSize
    }

    /** The used slots, in index order. */
    ghost function Dirs(): seq<string>
      reads this, dirList
      requires Valid()
    {
      if dirList == null then [] else dirList[..dirCount]
    }

    /** new_dir_list: no entries, no capacity, a NULL array. */
    constructor ()
      ensures Valid()
      ensures dirCount == 0 && dirSize == 0 && dirList == null
      ensures Dirs() == []
    {
      dirCount := 0;
      dirList := null;
      dirSize := 0;
    }

    /** increase_dir_alloc: a capacity of 0 becomes MIN_DIR_SIZE, any other
        capacity is kept; the array is reallocated to the capacity, keeping
        the used slots. */
    method IncreaseDirAlloc()
      requires Valid()
      modifies this
      ensures Valid() && fresh(dirList)
      ensures dirSize == if old(dirSize) == 0 then MIN_DIR_SIZE else old(dirSize)
      ensures dirCount == old(dirCount)
      ensures Dirs() == old(Dirs())
    {
      var previous := dirList;
      if dirSize == 0 {
        dirSize := dirSize + MIN_DIR_SIZE;
      }
      var grown := new string[dirSize];
      forall k | 0 <= k < dirCount {
        grown[k] := previous[k];
      }
      dirList := grown;
      assert dirList[..dirCount] == if previous == null then [] else previous[..dirCount];
    }

    /** add_dir: appends a copy of p_dir as the last entry and returns 1.
        Growth only ever reaches MIN_DIR_SIZE slots, so the list must not
        be full. */
    method AddDir(pDir: string) returns (ok: bool)
      requires Valid()
      requires dirCount < MIN_DIR_SIZE
      modifies this, dirList
      ensures Valid() && ok
      ensures dirList == old(dirList) || fresh(dirList)
      ensures dirCount == old(dirCount) + 1 && dirSize == MIN_DIR_SIZE
      ensures Dirs() == old(Dirs()) + [pDir]
    {
      if dirCount == dirSize {
        IncreaseDirAlloc();
      }
      dirList[dirCount] := pDir;
      dirCount := dirCount + 1;
      ok := true;
    }

    /** dir_in_list: 1 iff some entry equals p_dir, scanning from index 0. */
    method DirInList(pDir: string) returns (r: bool)
      requires Valid()
      ensures r <==> pDir in Dirs()
    {
      r := false;
      var dirLoop := 0;
      while dirLoop < dirCount
        invariant dirLoop <= dirCount
        invariant pDir !in Dirs()[..dirLoop]
      {
        if pDir == dirList[dirLoop] {
          r := true;
          break;
        }
        assert Dirs()[..dirLoop + 1] == Dirs()[..dirLoop] + [dirList[dirLoop]];
        dirLoop := dirLoop + 1;
      }
      assert !r ==> Dirs()[..dirLoop] == Dirs();
    }

    /** save_dir_list, given whether fopen succeeded: returns 1 iff it did,
        and what it writes, line by line. */
    method SaveDirList(canOpen: bool) returns (ok: bool, written: seq<string>)
      requires Valid()
      ensures ok == canOpen
      ensures written == if canOpen then SavedLines(Dirs()) else []
    {
      ok, written := false, [];
      if canOpen {
        written := [FILE_HEADER_DESC_STRING + "\n", FILE_HEADER_VER_STRING + "\n"];
        var dirLoop := 0;
        while dirLoop < dirCount
          invariant dirLoop <= dirCount
          invariant written == SavedLines(Dirs()[..dirLoop])
        {
          assert Dirs()[..dirLoop + 1][..dirLoop] == Dirs()[..dirLoop];
          written := written + [dirList[dirLoop] + "\n"];
          dirLoop := dirLoop + 1;
        }
        assert Dirs()[..dirCount] == Dirs();
        ok := true;
      }
    }
  }

  /** The body of the read loop of load_dir_list for one line: a comment
      line is skipped, any other is cut at its first NUL, trimmed and
      appended. */
  method LoadLine(list: DirListS, path: string)
    requires list.Valid() && |path| > 0 && path[0] != '\0'
    requires |list.Dirs()| + |LineEntry(path)| <= MIN_DIR_SIZE
    modifies list, list.dirList
    ensures list.Valid() && list.Dirs() == old(list.Dirs()) + LineEntry(path)
    ensures list.dirList == old(list.dirList) || fresh(list.dirList)
  {
    if path[0] != '#' {
      var cut := path[..CLength(path)];
      var len := TrimEolLength(cut);
      var _ := list.AddDir(cut[..len]);
    }
  }

  /** The read loop of load_dir_list over the lines of an opened file: a
      new list of the non-comment lines, trimmed, in file order. */
  method LoadLines(lines: seq<string>) returns (list: DirListS)
    requires NonEmptyLines(lines) && |LoadEntries(lines)| <= MIN_DIR_SIZE
    ensures fresh(list) && list.Valid() && list.Dirs() == LoadEntries(lines)
  {
    list := new DirListS();
    var i := 0;
    ghost var seen: seq<string> := [];
    while i < |lines|
      invariant i <= |lines| && seen == lines[..i] && NonEmptyLines(seen)
      invariant fresh(list) && list.Valid()
      invariant list.dirList != null ==> fresh(list.dirList)
      invariant list.Dirs() == LoadEntries(seen)
    {
      LoadEntriesNext(lines, i);
      LoadLine(list, lines[i]);
      seen := lines[..i + 1];
      i := i + 1;
    }
    assert seen == lines;
  }

  /** load_dir_list, given the lines fgets reads or None when fopen fails:
      NULL exactly when the file cannot be opened, otherwise a new list of
      the non-comment lines, each cut at its first NUL and trimmed, in file
      order. */
  method LoadDirList(file: Option<seq<string>>) returns (list: DirListS?)
    requires file.Some? ==> FgetsLines(file.value) && NonEmptyLines(file.value)
    requires file.Some? ==> |LoadEntries(file.value)| <= MIN_DIR_SIZE
    ensures list == null <==> file.None?
    ensures list != null ==> fresh(list) && list.Valid() && list.Dirs() == LoadEntries(file.value)
  {
    list := null;
    if file.Some? {
      list := LoadLines(file.value);
    }
  }

  /** dump_dir_list, given the stat oracle: the header with count and
      capacity, then every entry with its index and colour. */
  method DumpDirList(list: DirListS?, classify: string -> PathKind) returns (out: Output<Dump>)
    requires list != null ==> list.Valid()
    ensures out.EmptyDirlistStructure? <==> list == null
    ensures list != null ==>
      var dirs, dump := list.Dirs(), out.body;
      && dump.count == |dirs| && dump.size == list.dirSize && |dump.lines| == |dirs|
      && forall k :: 0 <= k < |dirs| ==>
           dump.lines[k] == DumpLine(k, DumpColour(classify(dirs[k])), dirs[k])
  {
    if list == null {
      out := EmptyDirlistStructure;
    } else {
      var lines: seq<DumpLine> := [];
      var dirLoop := 0;
      while dirLoop < list.dirCount
        invariant dirLoop <= list.dirCount && |lines| == dirLoop
        invariant forall k :: 0 <= k < dirLoop ==>
                    lines[k] == DumpLine(k, DumpColour(classify(list.Dirs()[k])), list.Dirs()[k])
      {
        var col := Reset;
        var dir := list.dirList[dirLoop];
        var kind := classify(dir);
        if kind == Missing || kind == StatFailed {
          if kind == Missing {
            col := Red;
          }
        } else {
          if kind == Directory {
            col := Green;
          } else {
            col := Grey;
          }
        }
        lines := lines + [DumpLine(dirLoop, col, dir)];
        dirLoop := dirLoop + 1;
      }
      out := Output(Dump(list.dirCount, list.dirSize, lines));
    }
  }
}
