/** The operation dispatcher of src/wd.c: do_remove and the switch in main.

    The store it drives is the newer bookmark list, whose entries carry a
    bookmark name and added/accessed times. Only the prototypes of the calls
    it makes on that store are visible (add_dir with five arguments,
    bookmark_in_list, dump_dir_with_name, dump_dir_if_exists), so the store
    here is a class over a sequence of bookmarks whose operations are stated
    directly on that sequence; the loop-level implementation of the same
    kind of store is the DirList module. The settings main reads after
    process_env and process_cmdln (operation, directory, bookmark name,
    prompt flag, wd_store_access, wd_now_time, list_fn) are a Config value, and the
    number the user types at the prompt is a ScanResult. */
module Wd {
  import opened Basics
  import Cmdln

  const EXIT_SUCCESS: int := 0
  const EXIT_FAILURE: int := 1

  /** The access time add_dir records when access times are not stored. */
  const NO_TIME: int := -1

  datatype Bookmark = Bookmark(path: string, name: Option<string>, added: int, accessed: int)

  function Paths(entries: seq<Bookmark>): (r: seq<string>)
    ensures |r| == |entries| && forall k :: 0 <= k < |r| ==> r[k] == entries[k].path
  {
    seq(|entries|, k requires 0 <= k < |entries| => entries[k].path)
  }

  function Names(entries: seq<Bookmark>): (r: seq<Option<string>>)
    ensures |r| == |entries| && forall k :: 0 <= k < |r| ==> r[k] == entries[k].name
  {
    seq(|entries|, k requires 0 <= k < |entries| => entries[k].name)
  }

  /** No two bookmarks share a path. */
  ghost predicate UniquePaths(entries: seq<Bookmark>)
  {
    forall i, j :: 0 <= i < j < |entries| ==> entries[i].path != entries[j].path
  }

  /** No two bookmarks share a (non-NULL) name. */
  ghost predicate UniqueNames(entries: seq<Bookmark>)
  {
    forall i, j :: 0 <= i < j < |entries| && entries[i].name.Some? ==> entries[i].name != entries[j].name
  }

  /** The diagnostics main and do_remove write to stderr. */
  datatype Warning =
    | UnableToLoad
    | InvalidIndex
    | DirectoryNotInList
    | DirectoryAlreadyInList
    | BookmarkNameAlreadyInList

  /** The settings main acts on. */
  datatype Config = Config(
    oper: Cmdln.Operation,
    operDir: string,
    bookmarkName: Option<string>,
    prompt: bool,
    storeAccess: bool,
    nowTime: int,
    listFn: Option<string>)

  /** What fscanf(stdin, "%u", &index) meets: a number, input that is not a
      number, or the end of the input. */
  datatype ScanResult = Scanned(index: nat) | NoMatch | EndOfInput

  /** The value fscanf returns: the count of items converted, or EOF. */
  function FscanfResult(scan: ScanResult): (r: int)
    ensures r == 1 <==> scan.Scanned?
    ensures r == -1 <==> scan.EndOfInput?
  {
    match scan
    case Scanned(_) => 1
    case NoMatch => 0
    case EndOfInput => -1
  }

  /** The index do_remove as written passes to remove_dir_by_index: it tests
      the fscanf result for being non-zero, so EOF counts as success and the
      index keeps its initial value 0. */
  function PromptIndexAsWritten(scan: ScanResult): (r: Option<nat>)
    ensures r.Some? <==> FscanfResult(scan) != 0
  {
    if FscanfResult(scan) != 0 then Some(if scan.Scanned? then scan.index else 0) else None
  }

  /** The index do_remove passes on when only a converted number counts. */
  function PromptIndex(scan: ScanResult): (r: Option<nat>)
    ensures r.Some? <==> scan.Scanned?
    ensures r.Some? ==> r.value == scan.index
  {
    if FscanfResult(scan) == 1 then Some(scan.index) else None
  }

  /** The outcome of one operation: the store, whether main saves it, and
      the warnings written. */
  datatype Step = Step(store: seq<Bookmark>, needsSave: bool, warnings: seq<Warning>)

  /** remove_dir: the first bookmark with the path taken out, if any has it. */
  function RemoveByPath(entries: seq<Bookmark>, path: string): Option<seq<Bookmark>>
  {
    match FirstIndex(Paths(entries), path)
    case None => None
    case Some(i) => Some(RemoveAt(entries, i))
  }

  /** remove_dir_by_index: the bookmark at the index taken out, if it exists. */
  function RemoveByIndex(entries: seq<Bookmark>, index: nat): Option<seq<Bookmark>>
  {
    if index < |entries| then Some(RemoveAt(entries, index)) else None
  }

  /** do_remove, given the index the prompt produced (when prompting): a
      removal marks the list for saving, a failed one warns by mode. */
  function RemoveWith(entries: seq<Bookmark>, prompt: bool, operDir: string, index: Option<nat>): Step
  {
    var attempt :=
      if !prompt then RemoveByPath(entries, operDir)
      else if index.Some? then RemoveByIndex(entries, index.value)
      else None;
    match attempt
    case Some(rest) => Step(rest, true, [])
    case None => Step(entries, false, [if prompt then InvalidIndex else DirectoryNotInList])
  }

  function RemoveStep(entries: seq<Bookmark>, prompt: bool, operDir: string, scan: ScanResult): Step
  {
    RemoveWith(entries, prompt, operDir, PromptIndex(scan))
  }

  function RemoveStepAsWritten(entries: seq<Bookmark>, prompt: bool, operDir: string, scan: ScanResult): Step
  {
    RemoveWith(entries, prompt, operDir, PromptIndexAsWritten(scan))
  }

  /** The first bookmark whose name is the given one. */
  function NameIndex(entries: seq<Bookmark>, name: Option<string>): (r: Option<nat>)
    ensures r.Some? ==> r.value < |entries| && entries[r.value].name == name
  {
    if name.None? then None else FirstIndex(Names(entries), name)
  }

  /** The first bookmark whose path is the given string. */
  function PathIndex(entries: seq<Bookmark>, path: Option<string>): (r: Option<nat>)
    ensures r.Some? ==> r.value < |entries| && Some(entries[r.value].path) == path
  {
    if path.None? then None else FirstIndex(Paths(entries), path.value)
  }

  /** The store after bookmark i has been printed: its access time is now
      when access times are stored. */
  function Touch(entries: seq<Bookmark>, i: nat, storeAccess: bool, now: int): seq<Bookmark>
    requires i < |entries|
  {
    if storeAccess then entries[i := entries[i].(accessed := now)] else entries
  }

  /** The get operations: the name lookup, then for WD_OPER_GET the path
      lookup; the list is saved only when one matched and access times are
      stored. */
  function GetStep(entries: seq<Bookmark>, cfg: Config): Step
  {
    var hit := match NameIndex(entries, cfg.bookmarkName)
      case Some(i) => Some(i)
      case None => if cfg.oper == Cmdln.Get then PathIndex(entries, cfg.bookmarkName) else None;
    match hit
    case Some(i) => Step(Touch(entries, i, cfg.storeAccess, cfg.nowTime), cfg.storeAccess, [])
    case None => Step(entries, false, [])
  }

  /** The add operation: refused when the path or the (non-NULL) name is
      already there, otherwise one new bookmark at the end. */
  function AddStep(entries: seq<Bookmark>, cfg: Config): Step
  {
    if cfg.operDir in Paths(entries) then Step(entries, false, [DirectoryAlreadyInList])
    else if NameIndex(entries, cfg.bookmarkName).Some? then Step(entries, false, [BookmarkNameAlreadyInList])
    else
      var accessed := if cfg.storeAccess then cfg.nowTime else NO_TIME;
      Step(entries + [Bookmark(cfg.operDir, cfg.bookmarkName, cfg.nowTime, accessed)], true, [])
  }

  /** The switch in main over the loaded store. */
  function Dispatch(cfg: Config, entries: seq<Bookmark>, scan: ScanResult): Step
  {
    match cfg.oper
    case Remove => RemoveStep(entries, cfg.prompt, cfg.operDir, scan)
    case Get => GetStep(entries, cfg)
    case GetByBookmarkName => GetStep(entries, cfg)
    case Add => AddStep(entries, cfg)
    case _ => Step(entries, false, [])
  }

  /** What a run of main produces: the exit code, what it saves (if it
      saves), and the warnings written; or, when the operation flags the
      list for saving while list_fn is still NULL, the abort raised by the
      assert( p_fn != NULL ) at the top of save_dir_list, after the warnings
      already written. */
  datatype Run =
    | Run(exitCode: int, saved: Option<seq<Bookmark>>, warnings: seq<Warning>)
    | SaveAborted(warnings: seq<Warning>)

  /** main, given whether process_env and process_cmdln both succeeded, the
      settings, the list load_dir_list read (None when it returned NULL)
      and the prompt input. */
  function Main(parsedOk: bool, cfg: Config, loaded: Option<seq<Bookmark>>, scan: ScanResult): Run
  {
    if !parsedOk then Run(EXIT_FAILURE, None, [])
    else if cfg.oper == Cmdln.NoOperation then Run(EXIT_SUCCESS, None, [])
    else
      var start := if loaded.Some? then loaded.value else [];
      var step := Dispatch(cfg, start, scan);
      var warnings := (if loaded.None? then [UnableToLoad] else []) + step.warnings;
      if step.needsSave && cfg.listFn.None? then SaveAborted(warnings)
      else Run(EXIT_SUCCESS, if step.needsSave then Some(step.store) else None, warnings)
  }

  /** The bookmark list as main and do_remove drive it. */
  class BookmarkList {
    var entries: seq<Bookmark>

    /** new_dir_list: an empty list. */
    constructor Empty()
      ensures entries == []
    {
      entries := [];
    }

    /** The list load_dir_list returns, holding what it read. */
    constructor Loaded(read: seq<Bookmark>)
      ensures entries == read
    {
      entries := read;
    }

    /** dir_in_list: whether some bookmark has the path. */
    method DirInList(path: string) returns (r: bool)
      ensures r <==> exists k :: 0 <= k < |entries| && entries[k].path == path
    {
      r := path in Paths(entries);
    }

    /** bookmark_in_list: whether some bookmark has the name. */
    method BookmarkInList(name: string) returns (r: bool)
      ensures r <==> exists k :: 0 <= k < |entries| && entries[k].name == Some(name)
    {
      r := NameIndex(entries, Some(name)).Some?;
    }

    /** add_dir with name and times: one bookmark appended at the end. */
    method AddDir(path: string, name: Option<string>, added: int, accessed: int)
      modifies this
      ensures entries == old(entries) + [Bookmark(path, name, added, accessed)]
    {
      entries := entries + [Bookmark(path, name, added, accessed)];
    }

    /** remove_dir: the first bookmark with the path is taken out. */
    method RemoveDir(path: string) returns (ok: bool)
      modifies this
      ensures ok <==> path in Paths(old(entries))
      ensures ok ==> RemoveByPath(old(entries), path) == Some(entries)
      ensures !ok ==> entries == old(entries)
    {
      var r := RemoveByPath(entries, path);
      ok := r.Some?;
      if ok {
        entries := r.value;
      }
    }

    /** remove_dir_by_index: the bookmark at the index is taken out. */
    method RemoveDirByIndex(index: nat) returns (ok: bool)
      modifies this
      ensures ok <==> index < |old(entries)|
      ensures ok ==> entries == RemoveAt(old(entries), index)
      ensures !ok ==> entries == old(entries)
    {
      ok := index < |entries|;
      if ok {
        entries := RemoveAt(entries, index);
      }
    }

    /** dump_dir_with_name: prints the path of the first bookmark with the
        name and, when access times are stored, records the access. */
    method DumpDirWithName(name: Option<string>, storeAccess: bool, now: int) returns (found: bool)
      modifies this
      ensures found <==> NameIndex(old(entries), name).Some?
      ensures found ==> var i := NameIndex(old(entries), name).value;
                        i < |old(entries)| && entries == Touch(old(entries), i, storeAccess, now)
      ensures !found ==> entries == old(entries)
    {
      var hit := NameIndex(entries, name);
      found := hit.Some?;
      if found {
        entries := Touch(entries, hit.value, storeAccess, now);
      }
    }

    /** dump_dir_if_exists: the same for the first bookmark whose path is
        the given string. */
    method DumpDirIfExists(path: Option<string>, storeAccess: bool, now: int) returns (found: bool)
      modifies this
      ensures found <==> PathIndex(old(entries), path).Some?
      ensures found ==> var i := PathIndex(old(entries), path).value;
                        i < |old(entries)| && entries == Touch(old(entries), i, storeAccess, now)
      ensures !found ==> entries == old(entries)
    {
      var hit := PathIndex(entries, path);
      found := hit.Some?;
      if found {
        entries := Touch(entries, hit.value, storeAccess, now);
      }
    }
  }

  /** do_remove: by path, or (with the prompt) by the number the user
      entered; returns whether the list needs saving. */
  method DoRemove(list: BookmarkList, prompt: bool, operDir: string, scan: ScanResult)
    returns (retVal: bool, warnings: seq<Warning>)
    modifies list
    ensures Step(list.entries, retVal, warnings) == RemoveStep(old(list.entries), prompt, operDir, scan)
  {
    var success := false;
    if prompt {
      if FscanfResult(scan) == 1 {
        success := list.RemoveDirByIndex(scan.index);
      }
    } else {
      success := list.RemoveDir(operDir);
    }
    warnings := [];
    if success {
      retVal := true;
    } else {
      retVal := false;
      warnings := [if prompt then InvalidIndex else DirectoryNotInList];
    }
  }

  /** The add branch of the switch in main: the duplicate checks, then
      add_dir with the added time now and the access time now or -1. */
  method DoAdd(list: BookmarkList, cfg: Config) returns (needsSave: bool, warnings: seq<Warning>)
    modifies list
    ensures Step(list.entries, needsSave, warnings) == AddStep(old(list.entries), cfg)
  {
    needsSave, warnings := false, [];
    var inList := list.DirInList(cfg.operDir);
    if inList {
      warnings := [DirectoryAlreadyInList];
    } else {
      var nameInList := false;
      if cfg.bookmarkName.Some? {
        nameInList := list.BookmarkInList(cfg.bookmarkName.value);
      }
      if nameInList {
        warnings := [BookmarkNameAlreadyInList];
      } else {
        var aTime := NO_TIME;
        if cfg.storeAccess {
          aTime := cfg.nowTime;
        }
        list.AddDir(cfg.operDir, cfg.bookmarkName, cfg.nowTime, aTime);
        needsSave := true;
      }
    }
  }

  /** The switch in main over a loaded list: what the operation does to the
      list, whether it flags the list for saving, and what it warns. */
  method DoOperation(list: BookmarkList, cfg: Config, scan: ScanResult) returns (needsSave: bool, warnings: seq<Warning>)
    modifies list
    ensures Step(list.entries, needsSave, warnings) == Dispatch(cfg, old(list.entries), scan)
  {
    needsSave, warnings := false, [];
    match cfg.oper {
      case Remove =>
        needsSave, warnings := DoRemove(list, cfg.prompt, cfg.operDir, scan);
      case Get =>
        var found := list.DumpDirWithName(cfg.bookmarkName, cfg.storeAccess, cfg.nowTime);
        if !found {
          found := list.DumpDirIfExists(cfg.bookmarkName, cfg.storeAccess, cfg.nowTime);
        }
        needsSave := found && cfg.storeAccess;
      case GetByBookmarkName =>
        var found := list.DumpDirWithName(cfg.bookmarkName, cfg.storeAccess, cfg.nowTime);
        needsSave := found && cfg.storeAccess;
      case Add =>
        needsSave, warnings := DoAdd(list, cfg);
      case _ =>
    }
  }

  /** main: load (or start empty), run the operation, then save at most
      once, only when the operation asked for it. */
  method RunMain(parsedOk: bool, cfg: Config, loaded: Option<seq<Bookmark>>, scan: ScanResult)
    returns (run: Run)
    ensures run == Main(parsedOk, cfg, loaded, scan)
  {
    var retCode := EXIT_FAILURE;
    var saved: Option<seq<Bookmark>> := None;
    var warnings: seq<Warning> := [];
    if parsedOk {
      if cfg.oper != Cmdln.NoOperation {
        var list: BookmarkList;
        if loaded.None? {
          warnings := [UnableToLoad];
          list := new BookmarkList.Empty();
        } else {
          list := new BookmarkList.Loaded(loaded.value);
        }
        var needsSave, w := DoOperation(list, cfg, scan);
        warnings := warnings + w;
        if needsSave {
          if cfg.listFn.None? {
            run := SaveAborted(warnings);
            return;
          }
          saved := Some(list.entries);
        }
      }
      retCode := EXIT_SUCCESS;
    }
    run := Run(retCode, saved, warnings);
  }

  /** A run aborts exactly when an accepted operation flags the list for
      saving with no list file named; otherwise the exit code reports only
      whether the environment and the command line were accepted, never how
      the operation went. */
  lemma ExitCodeOnlyFromParsing(parsedOk: bool, cfg: Config, loaded: Option<seq<Bookmark>>, scan: ScanResult)
    ensures var start := if loaded.Some? then loaded.value else [];
            Main(parsedOk, cfg, loaded, scan).SaveAborted? <==>
              parsedOk && cfg.oper != Cmdln.NoOperation && cfg.listFn.None? && Dispatch(cfg, start, scan).needsSave
    ensures Main(parsedOk, cfg, loaded, scan).Run? ==>
              Main(parsedOk, cfg, loaded, scan).exitCode == if parsedOk then EXIT_SUCCESS else EXIT_FAILURE
    ensures !parsedOk || cfg.oper == Cmdln.NoOperation ==>
              Main(parsedOk, cfg, loaded, scan) == Run(if parsedOk then EXIT_SUCCESS else EXIT_FAILURE, None, [])
  {
  }

  /** Taking one bookmark out keeps paths and names unique. */
  lemma RemoveAtKeepsUnique(entries: seq<Bookmark>, i: nat)
    requires i < |entries| && UniquePaths(entries) && UniqueNames(entries)
    ensures UniquePaths(RemoveAt(entries, i)) && UniqueNames(RemoveAt(entries, i))
  {
    var r := RemoveAt(entries, i);
    forall a, b | 0 <= a < b < |r|
      ensures r[a].path != r[b].path
      ensures r[a].name.Some? ==> r[a].name != r[b].name
    {
      var a', b' := if a < i then a else a + 1, if b < i then b else b + 1;
      assert a' < b' && r[a] == entries[a'] && r[b] == entries[b'];
    }
  }

  /** A successful remove by path, on a list whose paths are unique, leaves
      no bookmark with that path and takes out exactly one bookmark; a
      failed one leaves the list as it was and warns. */
  lemma RemoveByPathRemovesIt(entries: seq<Bookmark>, operDir: string, scan: ScanResult)
    requires UniquePaths(entries)
    ensures var step := RemoveStep(entries, false, operDir, scan);
            && (step.needsSave <==> operDir in Paths(entries))
            && operDir !in Paths(step.store)
            && (step.needsSave ==>
                  |step.store| == |entries| - 1 &&
                  exists b :: b in entries && b.path == operDir && multiset(step.store) + multiset{b} == multiset(entries))
            && (!step.needsSave ==> step.store == entries && step.warnings == [DirectoryNotInList])
  {
    var step := RemoveStep(entries, false, operDir, scan);
    match FirstIndex(Paths(entries), operDir)
    case None =>
    case Some(i) =>
      var r := RemoveAt(entries, i);
      assert step.store == r;
      forall k | 0 <= k < |r| ensures r[k].path != operDir {
        var k' := if k < i then k else k + 1;
        assert r[k] == entries[k'] && k' != i;
      }
      assert entries[i] in entries;
  }

  /** With the prompt, the number entered removes the bookmark at that index
      when there is one; anything else (no number, end of input, an index
      past the end) changes nothing and warns about the index. */
  lemma RemoveByIndexOutcome(entries: seq<Bookmark>, operDir: string, scan: ScanResult)
    ensures var step := RemoveStep(entries, true, operDir, scan);
            && (step.needsSave <==> scan.Scanned? && scan.index < |entries|)
            && (step.needsSave ==> step.store == RemoveAt(entries, scan.index))
            && (!step.needsSave ==> step.store == entries && step.warnings == [InvalidIndex])
  {
  }

  /** As written, reaching the end of the input at the prompt removes the
      first bookmark and flags the list for saving; with only a converted
      number counting, it changes nothing and reports an invalid index. */
  lemma EndOfInputRemovesFirst(entries: seq<Bookmark>, operDir: string)
    requires |entries| > 0
    ensures RemoveStepAsWritten(entries, true, operDir, EndOfInput) == Step(entries[1..], true, [])
    ensures RemoveStep(entries, true, operDir, EndOfInput) == Step(entries, false, [InvalidIndex])
  {
    assert RemoveAt(entries, 0) == entries[1..];
  }

  /** Adding leaves the path in the list unless the name was taken, and
      appends exactly the new bookmark, stamped with the current time. */
  lemma AddOutcome(entries: seq<Bookmark>, cfg: Config)
    ensures var step := AddStep(entries, cfg);
            && (step.needsSave <==>
                  cfg.operDir !in Paths(entries) && (cfg.bookmarkName.None? || cfg.bookmarkName !in Names(entries)))
            && (step.warnings == [] <==> step.needsSave)
            && (step.needsSave ==>
                  step.store == entries + [Bookmark(cfg.operDir, cfg.bookmarkName, cfg.nowTime,
                                                    if cfg.storeAccess then cfg.nowTime else NO_TIME)])
            && (!step.needsSave ==> step.store == entries)
            && (cfg.operDir in Paths(entries) ==> step.warnings == [DirectoryAlreadyInList])
            && (cfg.operDir !in Paths(entries) && !step.needsSave ==> step.warnings == [BookmarkNameAlreadyInList])
            && (cfg.operDir in Paths(step.store) || step.warnings == [BookmarkNameAlreadyInList])
  {
    var step := AddStep(entries, cfg);
    if step.needsSave {
      assert Paths(step.store)[|entries|] == cfg.operDir;
    }
  }

  /** Which bookmark a get prints and stamps: the first one with the
      bookmark name, or else, for WD_OPER_GET only, the first one whose path
      is that string. The list is saved exactly when one matched and access
      times are stored, and then only that bookmark's access time changes. */
  lemma GetOutcome(entries: seq<Bookmark>, cfg: Config)
    ensures var step, name := GetStep(entries, cfg), cfg.bookmarkName;
            var byName := name.Some? && name in Names(entries);
            var byPath := cfg.oper == Cmdln.Get && name.Some? && name.value in Paths(entries);
            && (step.needsSave <==> cfg.storeAccess && (byName || byPath))
            && (!step.needsSave ==> step.store == entries)
            && (step.needsSave && byName ==>
                  var i := FirstIndex(Names(entries), name).value;
                  step.store == entries[i := entries[i].(accessed := cfg.nowTime)])
            && (step.needsSave && !byName ==>
                  var i := FirstIndex(Paths(entries), name.value).value;
                  step.store == entries[i := entries[i].(accessed := cfg.nowTime)])
  {
  }

  /** The get operations change at most the access time of one bookmark,
      and ask for a save only when access times are stored. */
  lemma GetOnlyTouches(entries: seq<Bookmark>, cfg: Config)
    ensures var step := GetStep(entries, cfg);
            && |step.store| == |entries| && step.warnings == []
            && Paths(step.store) == Paths(entries) && Names(step.store) == Names(entries)
            && (step.needsSave ==> cfg.storeAccess)
            && (!cfg.storeAccess ==> step.store == entries)
            && forall k :: 0 <= k < |entries| && step.store[k] != entries[k] ==>
                 step.store[k] == entries[k].(accessed := cfg.nowTime)
  {
  }

  /** Every operation keeps paths and names unique: add refuses duplicates,
      remove only takes out, get only changes an access time. */
  lemma DispatchKeepsUnique(cfg: Config, entries: seq<Bookmark>, scan: ScanResult)
    requires UniquePaths(entries) && UniqueNames(entries)
    ensures UniquePaths(Dispatch(cfg, entries, scan).store)
    ensures UniqueNames(Dispatch(cfg, entries, scan).store)
  {
    var step := Dispatch(cfg, entries, scan);
    match cfg.oper
    case Remove =>
      var index := if !cfg.prompt then FirstIndex(Paths(entries), cfg.operDir) else PromptIndex(scan);
      if step.needsSave {
        RemoveAtKeepsUnique(entries, index.value);
      }
    case Add =>
      if step.needsSave {
        var n := |entries|;
        forall a, b | 0 <= a < b < |step.store|
          ensures step.store[a].path != step.store[b].path
          ensures step.store[a].name.Some? ==> step.store[a].name != step.store[b].name
        {
          if b == n {
            assert Paths(entries)[a] == entries[a].path;
            assert Names(entries)[a] == entries[a].name;
          }
        }
      }
    case Get =>
      GetOnlyTouches(entries, cfg);
      assert forall k :: 0 <= k < |entries| ==> Paths(step.store)[k] == Paths(entries)[k];
      assert forall k :: 0 <= k < |entries| ==> Names(step.store)[k] == Names(entries)[k];
    case GetByBookmarkName =>
      GetOnlyTouches(entries, cfg);
      assert forall k :: 0 <= k < |entries| ==> Paths(step.store)[k] == Paths(entries)[k];
      assert forall k :: 0 <= k < |entries| ==> Names(step.store)[k] == Names(entries)[k];
    case _ =>
  }

  /** A list that is not flagged for saving is unchanged, a warning always
      means nothing changed, and dump and list never change or save it. */
  lemma UnsavedMeansUnchanged(cfg: Config, entries: seq<Bookmark>, scan: ScanResult)
    ensures var step := Dispatch(cfg, entries, scan);
            && (!step.needsSave ==> step.store == entries)
            && (step.warnings != [] ==> !step.needsSave)
            && (cfg.oper == Cmdln.Dump || cfg.oper == Cmdln.List ==> step == Step(entries, false, []))
  {
    if cfg.oper == Cmdln.Add {
      AddOutcome(entries, cfg);
    } else if cfg.oper == Cmdln.Get || cfg.oper == Cmdln.GetByBookmarkName {
      GetOnlyTouches(entries, cfg);
    }
  }

  /** A run saves at most the list it loaded (or an empty one) after the
      operation, only to a named list file, and a list that could not be
      loaded is reported. */
  lemma MainSavesDispatch(parsedOk: bool, cfg: Config, loaded: Option<seq<Bookmark>>, scan: ScanResult)
    ensures var run := Main(parsedOk, cfg, loaded, scan);
            var start := if loaded.Some? then loaded.value else [];
            && (run.Run? && run.saved.Some? <==>
                  parsedOk && cfg.oper != Cmdln.NoOperation && cfg.listFn.Some? && Dispatch(cfg, start, scan).needsSave)
            && (run.Run? && run.saved.Some? ==> run.saved.value == Dispatch(cfg, start, scan).store)
            && (UnableToLoad in run.warnings <==> parsedOk && cfg.oper != Cmdln.NoOperation && loaded.None?)
  {
    var run := Main(parsedOk, cfg, loaded, scan);
    if parsedOk && cfg.oper != Cmdln.NoOperation {
      var start := if loaded.Some? then loaded.value else [];
      UnsavedMeansUnchanged(cfg, start, scan);
      assert forall w :: w in Dispatch(cfg, start, scan).warnings ==> w != UnableToLoad;
    }
  }
}
