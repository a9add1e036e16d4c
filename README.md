# wd — bookmark list, dispatcher and command-line parsers in Dafny

`wd` is a command-line directory bookmarking tool. It keeps an ordered list
of directories in a text file (`~/.wd_list` by default). It can add the current
or a named directory, remove one by path or by the number the user types at a
prompt, print a bookmark, and dump or list the whole list. This project
models the part of the C program that does the bookkeeping, and proves
properties of the model:

- **`ListFile`** (`list_file.dfy`) — the list-file format both revisions of
  `dir_list.c` read and write. A file is the sequence of lines `fgets` returns.
  Loading skips `#` lines and strips trailing CR/LF, but never the first
  character. A line is seen only up to its first NUL, as `strlen` measures
  it. Saving writes the two header lines, then each entry followed by
  `"\n"`. The round-trip lemma covers lists whose entries are C strings
  without a newline that fit the `fgets` buffer, each saved as one line. For
  those lists it states exactly which ones survive a save and a load.
- **`DirList`** (`dir_list.dfy`) — the newer store in `src/dir_list.c`. It is
  a class holding the `dir_count` / `dir_size` / `dir_list` fields over an
  `array?<DirListItem>`. Its methods have the source's loops: find,
  remove by index with the `memmove` shift, remove, load with its trimming
  loop, save, `list_dirs` with its sticky `valid` flag, and dump.
- **`LegacyDirList`** (`legacy_dir_list.dfy`) — the older top-level
  `dir_list.c`, over an `array?<string>`.
- **`Cmdln`** (`cmdln.dfy`) and **`LegacyCmdln`** (`legacy_cmdln.dfy`) — the two
  `process_cmdln` state machines. The globals are fields of a class. Each
  `ProcessCmdln` loop, which advances its index inside the body, is proved to
  compute the same settings and result as `Parse`, a left-to-right
  reading of `argv`. Lemmas then state what a whole command line decides:
  when the result is 1, which flag wins, and what becomes the directory and
  the list file. `Reaches(argv, i, j)` says that argument `j` is read as a
  flag rather than taken as a parameter.
- **`Wd`** (`wd.dfy`) — `do_remove` and the operation switch in `main` of
  `src/wd.c`. They drive a bookmark store whose operations are given only as
  prototypes, so that store is modelled over a sequence of bookmarks. The
  spec functions `Dispatch` and `Main` state, per operation:
  - whether the list changes;
  - whether it is saved;
  - what is warned.

  The methods `DoRemove`, `DoAdd`, `DoOperation` and `RunMain` are proved
  against those functions.

Parameters stand in for the outside world:

- the `stat` probe (`classify: string -> PathKind`);
- whether `fopen` succeeds;
- the lines of the file;
- the current directory;
- the home-directory lookup;
- the number typed at the prompt (`ScanResult`);
- the settings `process_env` and `process_cmdln` leave behind, `list_fn` among them (`Config`).

Behaviour of the code worth knowing:

- The dump colours differ between the two revisions. In `src/dir_list.c`, a
  missing path is grey and a non-directory red. In `dir_list.c` it is the
  other way round.
- `WD_OPER_GET` tries the bookmark name and then the literal path. There is
  no numeric-index lookup.
- `list_dirs` filters with a flag that is never reset. The first entry that
  is not a directory hides itself and every later entry.
- Once an operation is set, `-a`/`-r` on the command line is reported as
  incompatible. It does not make `process_cmdln` fail.
- The older `cmdln.h` declares only `WD_OPER_NONE` and `WD_OPER_ADD`, but the
  older `cmdln.c` also sets `WD_OPER_DUMP`. `LegacyCmdln.Operation` has all
  three.

## Model

| member | source | states |
|---|---|---|
| Basics.RemoveAt | src/dir_list.c:155-171 | removing index i keeps the elements before i, shifts every later one down by one in order, shortens by one, and is a permutation minus the removed element |
| Basics.FirstIndex | src/dir_list.c:135-153 | None exactly when the value is absent; otherwise the lowest index holding it |
| ListFile.TrimEol | src/dir_list.c:114-124 | the trimmed line is a non-empty prefix, everything cut off is CR/LF, and what remains ends in neither unless only the first character is left |
| ListFile.CLengthFirstNul | src/dir_list.c:115 | strlen stops at the first NUL, with no NUL before it, and measures a string without NUL whole |
| ListFile.TrimEolLength | src/dir_list.c:114-124 | the backward trimming loop that overwrites CR/LF with NUL and stops at position 1 leaves exactly TrimEol of the line |
| ListFile.EntryLinesShape | src/dir_list.c:278-281 | save writes one line per entry, in index order, each the entry followed by a newline |
| ListFile.LoadEntriesAppend | src/dir_list.c:112-127 | loading is line by line: the entries read from two consecutive stretches of a file are those of each, concatenated |
| ListFile.LoadEntriesPrefix | src/dir_list.c:112-127 | a prefix of a file never yields more entries than the whole file |
| ListFile.LoadedEntryShape | src/dir_list.c:113-125 | no loaded entry is empty or starts with '#' |
| ListFile.LoadEntriesNext | src/dir_list.c:112-127 | reading one more line adds exactly what that line gives, and never more entries than the whole file |
| ListFile.ReloadsOne | src/dir_list.c:113-125 | the saved line of a C string is one the loader accepts, and it loads back as that entry if and only if the entry is non-empty, not a comment, and does not end in CR/LF past its first character |
| ListFile.EntryLinesSnoc | src/dir_list.c:278-281 | saving one more C string adds one line, and loading gives the earlier entries followed by what that line gives, at most one entry |
| ListFile.LoadEntryLines | src/dir_list.c:278-281 | the entry lines of C strings load back to at most as many entries, and to exactly the entries if and only if every entry reloads |
| ListFile.SavedLinesLoad | src/dir_list.c:275-281 | the two header lines add no entries when the saved file is loaded |
| ListFile.SaveLoadRoundTrip | src/dir_list.c:101-133 | for C strings without a newline that fit the buffer, the saved file is one fgets reads back line by line, and loading it gives back the list if and only if every entry is non-empty, does not start with '#' and does not end in CR beyond its first character |
| ListFile.HeaderLinesReadable | src/dir_list.c:275-276 | the two header lines are lines fgets reads whole |
| ListFile.SavedLinesReadable | src/dir_list.c:275-281 | when no entry holds a newline and each fits the buffer, the saved file is one that fgets reads back line by line |
| DirList.DirListS.constructor | src/dir_list.c:88-99 | a new list has count 0, capacity 0, a NULL array and no entries |
| DirList.DirListS.IncreaseDirAlloc | src/dir_list.c:54-64 | capacity 0 becomes 100 and any other capacity stays; the reallocated array keeps the entries and the count |
| DirList.DirListS.AddDir | src/dir_list.c:66-86 | add_dir appends exactly one entry holding the path after the old entries, increments the count and returns 1 |
| DirList.DirListS.FindDirLocation | src/dir_list.c:135-153 | found if and only if some entry equals the path; the location is then the lowest such index, and otherwise the caller's value is left untouched |
| DirList.DirListS.RemoveDirByIndex | src/dir_list.c:155-171 | an index past the count returns 0 and changes nothing; otherwise that entry is removed, later ones shift down in order, the count drops by one and 1 is returned |
| DirList.DirListS.RemoveDir | src/dir_list.c:173-183 | returns 1 if and only if the path is present, and then only its first occurrence is removed; otherwise the list is unchanged |
| DirList.DirListS.DirInList | src/dir_list.c:185-188 | true if and only if some entry equals the path |
| DirList.DirListS.SaveDirList | src/dir_list.c:264-288 | returns 1 if and only if the file opens, and then writes the two header lines followed by every entry in index order |
| DirList.LoadLine | src/dir_list.c:113-126 | one line read: a comment adds nothing, any other line is cut at its first NUL, trimmed and appended |
| DirList.LoadLines | src/dir_list.c:108-128 | the read loop over an opened file leaves a fresh list of the non-comment lines, each cut at its first NUL and trimmed, in file order |
| DirList.LoadDirList | src/dir_list.c:101-133 | NULL exactly when the file cannot be opened; otherwise a fresh list of the non-comment lines, each cut at its first NUL and trimmed, in file order |
| DirList.ListDirs | src/dir_list.c:190-221 | prints a prefix of the entries, in order: all leading entries that are directories, stopping at the first one that is not |
| DirList.DumpDirList | src/dir_list.c:223-262 | "Empty dirlist structure" exactly for NULL; otherwise count, capacity, and one line per entry with its index and colour (missing grey, stat error reset, directory green, other red) |
| LegacyDirList.DirListS.constructor | dir_list.c:75-86 | a new list has count 0, capacity 0, a NULL array and no entries |
| LegacyDirList.DirListS.IncreaseDirAlloc | dir_list.c:44-53 | capacity 0 becomes 100 and any other capacity stays; the entries and count are kept |
| LegacyDirList.DirListS.AddDir | dir_list.c:55-73 | appends a copy of the path as the last entry, keeps the earlier ones, increments the count and returns 1 |
| LegacyDirList.DirListS.DirInList | dir_list.c:122-136 | the scan from index 0 returns 1 if and only if some entry equals the path |
| LegacyDirList.DirListS.SaveDirList | dir_list.c:174-198 | returns 1 if and only if the file opens, and then writes the header lines and the entries in index order |
| LegacyDirList.LoadLine | dir_list.c:100-113 | a comment line adds nothing, any other line is cut at its first NUL, trimmed and appended |
| LegacyDirList.LoadLines | dir_list.c:95-115 | the read loop over an opened file leaves a fresh list of the non-comment lines, each cut at its first NUL and trimmed, in file order |
| LegacyDirList.LoadDirList | dir_list.c:88-120 | NULL exactly when the file cannot be opened; otherwise the non-comment lines, each cut at its first NUL and trimmed, in file order |
| LegacyDirList.DumpDirList | dir_list.c:137-172 | count, capacity and one indexed line per entry, coloured missing red, stat error reset, directory green, other grey |
| Cmdln.ParseOk | src/cmdln.c:111-194 | the result is 1 if and only if every argument read as a flag is a known flag with its required parameter (and -s's parameter starts with 'c'); an incompatible -a/-r does not clear it |
| Cmdln.OperDirFixedOnceSet | src/cmdln.c:146-175 | once an operation is set it is never cleared, and later -a/-r never change the directory |
| Cmdln.OperationKept | src/cmdln.c:142-175 | with no -d or -l still to come, a set operation stays as it is |
| Cmdln.LastDumpOrListWins | src/cmdln.c:142-145 | the last -d or -l read as a flag decides the operation whatever came before |
| Cmdln.FirstAddOrRemove | src/cmdln.c:146-166 | the first -a/-r sets Add/Remove, and its directory is the next argument when that exists and does not start with '-', else the current directory |
| Cmdln.ListFnKept | src/cmdln.c:176-186 | with no -f read as a flag, the list file is untouched |
| Cmdln.LastListFileWins | src/cmdln.c:176-186 | the last "-f fn" read as a flag makes fn the list file |
| Cmdln.PromptSet | src/cmdln.c:123-124 | after the whole command line, wd_prompt is set if and only if it was set before or some -p is read as a flag |
| Cmdln.CygwinFormSet | src/cmdln.c:125-141 | after the whole command line, the path form is Cygwin if some -s read as a flag has a parameter starting with 'c', and otherwise keeps its earlier value |
| Cmdln.PosixGetHomeAsWritten | src/cmdln.c:55-66 | as written, success is set only when no home directory was found |
| Cmdln.PosixGetHomeInverted | src/cmdln.c:55-79 | as written, a found home directory leaves list_fn untouched and a missing one hands NULL to strlen |
| Cmdln.Cmdln.constructor | src/cmdln.c:41-46 | before init_cmdln, the globals are zero: no operation, list_fn NULL, no name, no prompt, no path form |
| Cmdln.Cmdln.GetHome | src/cmdln.c:68-79 | with a home directory, list_fn becomes it followed by "/.wd_list"; without one nothing changes |
| Cmdln.Cmdln.InitCmdln | src/cmdln.c:85-94 | init_cmdln sets list_fn from the home directory and leaves the operation NONE, prompt 0, bookmark name NULL and path form NONE |
| Cmdln.Cmdln.ReadFlag | src/cmdln.c:118-190 | one pass of the loop: the flag at arg_loop changes the globals and the result as ApplyFlag says, and the next flag is read at NextFlag |
| Cmdln.Cmdln.ProcessCmdln | src/cmdln.c:111-194 | the loop over argv from index 1 leaves the globals and returns the result that Parse gives, for every argv in which each argument following an -a or -r is shorter than MAXPATHLEN, and the current directory too |
| LegacyCmdln.ParseOk | cmdln.c:76-118 | the result is 1 if and only if every argument read as a flag is -v, -d, -a, or -l with a parameter |
| LegacyCmdln.OperationKept | cmdln.c:86-99 | with no -d or -a still to come, the operation and the directory stay as they are |
| LegacyCmdln.LastOperationWins | cmdln.c:86-99 | the last -d or -a read as a flag decides the operation, with no compatibility check; for -a its directory is the next non-'-' argument or the current directory |
| LegacyCmdln.ListFnKept | cmdln.c:100-110 | with no -l read as a flag, the list file is untouched |
| LegacyCmdln.LastListFileWins | cmdln.c:100-110 | the last "-l fn" read as a flag makes fn the list file |
| LegacyCmdln.Cmdln.constructor | cmdln.c:36-38 | before init_cmdln there is no operation, list_fn is NULL and the directory is empty |
| LegacyCmdln.Cmdln.GetHome | cmdln.c:40-66 | with a home directory, list_fn becomes it followed by "/.wd_list"; without one nothing changes |
| LegacyCmdln.Cmdln.InitCmdln | cmdln.c:68-74 | init_cmdln sets list_fn from the home directory and the operation to NONE |
| LegacyCmdln.Cmdln.ProcessCmdln | cmdln.c:76-118 | the loop over argv leaves the globals and returns the result that Parse gives, for every argv in which each argument following an -a is shorter than MAXPATHLEN, and the current directory too |
| Wd.FscanfResult | src/wd.c:44 | fscanf returns 1 exactly when a number was converted and EOF exactly at the end of the input |
| Wd.PromptIndexAsWritten | src/wd.c:44-48 | as written, any non-zero fscanf result, EOF included, goes on to remove_dir_by_index |
| Wd.PromptIndex | src/wd.c:44-48 | only a converted number goes on to remove_dir_by_index, and it is that number |
| Wd.BookmarkList.Empty | src/wd.c:97-101 | the fresh list main falls back to holds no bookmarks |
| Wd.BookmarkList.Loaded | src/wd.c:95 | the loaded list holds what was read |
| Wd.BookmarkList.DirInList | src/wd.c:131 | true if and only if some bookmark has the path |
| Wd.BookmarkList.BookmarkInList | src/wd.c:135-136 | true if and only if some bookmark has the name |
| Wd.BookmarkList.AddDir | src/wd.c:145-149 | one bookmark with the path, name, added and accessed times is appended at the end |
| Wd.BookmarkList.RemoveDir | src/wd.c:52 | succeeds if and only if the path is present, removing its first bookmark; otherwise nothing changes |
| Wd.BookmarkList.RemoveDirByIndex | src/wd.c:47 | succeeds if and only if the index is in range, removing that bookmark; otherwise nothing changes |
| Wd.BookmarkList.DumpDirWithName | src/wd.c:112 | found if and only if a bookmark has the name; only its access time may change |
| Wd.BookmarkList.DumpDirIfExists | src/wd.c:113 | found if and only if a bookmark has the path; only its access time may change |
| Wd.DoRemove | src/wd.c:28-76 | do_remove's list, return value and warning are those of RemoveStep (corrected; see ## Findings) |
| Wd.DoAdd | src/wd.c:128-152 | the add branch's list, save flag and warning are those of AddStep |
| Wd.DoOperation | src/wd.c:105-169 | the switch's list, save flag and warnings are those of Dispatch (corrected; see ## Findings) |
| Wd.RunMain | src/wd.c:78-182 | main's exit code, saved list and warnings, or its abort in save_dir_list when list_fn is NULL, are those of Main (corrected; see ## Findings) |
| Wd.ExitCodeOnlyFromParsing | src/wd.c:170-178 | the run aborts exactly when parsing succeeded, an operation was set, it flagged a save and list_fn is NULL; otherwise the exit code depends only on whether env and argv parsing succeeded; without them or without an operation nothing is saved and nothing is warned |
| Wd.RemoveAtKeepsUnique | src/wd.c:47-52 | removing one bookmark keeps paths and names unique |
| Wd.RemoveByPathRemovesIt | src/wd.c:50-72 | remove by path saves if and only if the path was present; afterwards no bookmark has it (paths unique), exactly one bookmark with it was taken out, and otherwise the list is unchanged with "Directory not in list" |
| Wd.RemoveByIndexOutcome | src/wd.c:34-66 | with the prompt, the list is saved if and only if a number in range was entered, removing that bookmark; otherwise it is unchanged with "Invalid index" |
| Wd.EndOfInputRemovesFirst | src/wd.c:44-47 | as written, end of input at the prompt removes the first bookmark and saves; corrected, it reports an invalid index and changes nothing |
| Wd.AddOutcome | src/wd.c:128-152 | add saves if and only if neither the path nor the non-NULL name is present, appending exactly the new bookmark stamped now (accessed now or -1); a present path warns "Directory already in list", otherwise a taken name warns "Bookmark name already in list"; afterwards the path is in the list unless the name clashed |
| Wd.GetOutcome | src/wd.c:109-127 | a get saves if and only if access times are stored and a bookmark has the name or, for WD_OPER_GET only, the path; the name match is tried first, and only the first matching bookmark's access time becomes now |
| Wd.GetOnlyTouches | src/wd.c:109-127 | get and get-by-name keep every path and name, change at most access times to now, and save only when access times are stored |
| Wd.DispatchKeepsUnique | src/wd.c:105-169 | every operation keeps bookmark paths and names unique |
| Wd.UnsavedMeansUnchanged | src/wd.c:153-172 | an operation that does not flag a save leaves the list unchanged, a warning never comes with a save, and dump and list neither change nor save |
| Wd.MainSavesDispatch | src/wd.c:89-172 | main saves once, exactly when parsing succeeded, an operation was set, it flagged a save and list_fn is set, and it saves the operation's result; "Unable to load" is warned exactly when the load failed |

## Left out

- DirList.DirListS.AddDir: requires fewer than 100 entries. The growth step never enlarges a non-zero capacity, so the 101st `add_dir` writes past the array.
- LegacyDirList.DirListS.AddDir: requires fewer than 100 entries, for the same reason.
- DirList.LoadDirList: requires that the file holds at most 100 entries, since loading goes through `add_dir`. Its lines are taken to be what successive `fgets` calls deliver: each fits the `MAXPATHLEN` buffer and ends at a newline unless it fills the buffer or is the last line.
- DirList.LoadDirList: requires that no line starts with NUL. For such a line `strlen(path) - 1` wraps round to `SIZE_MAX` in `size_t`, and the trimming loop then reads `path[SIZE_MAX]`, far outside the buffer (src/dir_list.c:115). That undefined behaviour is not modelled.
- LegacyDirList.LoadDirList: the same three requirements (dir_list.c:102).
- ListFile.SaveLoadRoundTrip: stated only for entries that are C strings without a newline and that fit the `fgets` buffer with their newline. An entry holding a newline is written as several lines and read back as several entries; the byte stream is not modelled, so the lemma says nothing about such entries.
- Cmdln.Cmdln.ProcessCmdln: requires each argument that follows an -a or -r, and the current directory, to be shorter than `MAXPATHLEN`. `strcpy` into `wd_oper_dir` is unchecked.
- LegacyCmdln.Cmdln.ProcessCmdln: the same requirement for arguments that follow an -a.
- Wd.RunMain: the abort in `save_dir_list` is the `SaveAborted` outcome, with no exit code; the signal status it leaves is not modelled. With `list_fn` NULL, `load_dir_list` hands NULL to `fopen`; what that returns is the `loaded` parameter.
- Allocation is not modelled:
  - failed `malloc`/`realloc` results are never checked by the code;
  - `new_dir_list` allocates only the size of a pointer;
  - `-f` and `-l` allocate one byte less than `strcpy` writes (src/cmdln.c:181, cmdln.c:105).
- Output text is not modelled: version and help text, ANSI escape bytes and `printf` layout. The dump is modelled as its count, capacity and indexed, coloured lines, and `list_dirs` as the paths it prints.
- `stat`, `errno`, `fopen`, `fgets`, `getcwd`, `getenv`/`getpwuid`, `SHGetFolderPath` and `stdin` are parameters. The bodies of `process_env`, the five-argument `add_dir`, `bookmark_in_list`, `dump_dir_with_name` and `dump_dir_if_exists` are not part of this model.
- Wd.BookmarkList.DumpDirWithName: the lookup is assumed to find the first bookmark with the name and to set its access time to now when access times are stored. A NULL name matches nothing.
- Wd.BookmarkList.DumpDirIfExists: the same assumption, matching the literal path.
- The `"%u"` conversion into a `size_t`, and printing the index with `%d` in the warning, are not modelled.
- `main`'s "Unhandled operation type" branch is not modelled. `wd_oper` is never NONE there, and every other operation has its own case.
- The Windows branch of `get_home` is covered by `Cmdln.Cmdln.GetHome` receiving the lookup result.
- The record format with `:path`, name and time lines, path conversion for Cygwin/Windows, and escaping are not modelled. No code in the modelled files implements them.

## Findings

| source | as written | input that shows it | evidently intended | confidence | as-written member | corrected member |
|---|---|---|---|---|---|---|
| src/wd.c:44-47 | `do_remove` tests the result of `fscanf` for being non-zero, so `EOF` (-1) counts as a successful read and `index` keeps its initial 0 | `wd -r -p` with a non-empty list and standard input at end of file: the first bookmark is removed and the list saved | only a converted number (result 1) leads to `remove_dir_by_index`; otherwise "Invalid index" and no change | high, not executed | Wd.EndOfInputRemovesFirst | Wd.DoRemove |
| src/cmdln.c:63-65 | the POSIX branch of `get_home` sets `success` only when no home directory was found | `HOME=/home/u`: `list_fn` stays NULL, so any command that flags the list for saving without `-f` aborts at the `assert( p_fn != NULL )` in `save_dir_list` (src/dir_list.c:268), which `Wd.Main` models as `SaveAborted`; `HOME` unset and no password entry: `strlen(NULL)` | success when a home directory was found, so that `list_fn` becomes the home directory followed by "/.wd_list" | high, not executed | Cmdln.PosixGetHomeInverted | Cmdln.Cmdln.GetHome |
