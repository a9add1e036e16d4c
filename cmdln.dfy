/** The command-line parser of src/cmdln.c. The process-wide settings it
    fills in (wd_oper, list_fn, wd_oper_dir, wd_bookmark_name, wd_prompt,
    wd_dir_form) are the fields of class Cmdln; the getcwd() result and the
    home-directory lookup are parameters.

    process_cmdln is specified by Parse, a left-to-right reading of argv in
    which each flag may take the next argument with it; Reaches(argv, i, j)
    says that argument j is read as a flag (not taken as a parameter) when
    reading starts at i. The lemmas state what a whole run guarantees. */
module Cmdln {
  import opened Basics

  const DEFAULT_LIST_FILE: string := "/.wd_list"

  /** wd_oper_t */
  datatype Operation = NoOperation | Add | Remove | Dump | List | GetByBookmarkName | Get

  /** wd_dir_format_t */
  datatype DirForm = NoForm | Cygwin | Windows

  /** The settings process_cmdln touches, and its result ret_val. */
  datatype Settings = Settings(
    oper: Operation,
    operDir: string,
    listFn: Option<string>,
    prompt: bool,
    dirForm: DirForm,
    ok: bool)

  /** An argument that -a or -r takes as its directory: one that does not
      start with '-' (an empty one starts with the terminating NUL). */
  predicate IsParam(a: string)
  {
    |a| == 0 || a[0] != '-'
  }

  /** Every argument after an -a or -r fits the MAXPATHLEN buffer
      wd_oper_dir that strcpy copies it into. */
  predicate OperDirsFit(argv: seq<string>)
  {
    forall k :: 0 < k < |argv| - 1 && (argv[k] == "-a" || argv[k] == "-r") ==> |argv[k + 1]| < MAXPATHLEN
  }

  /** Whether the flag at index i takes argv[i + 1] with it. "-f" always
      steps over the next index, even when there is none. */
  predicate TakesNext(argv: seq<string>, i: nat)
    requires i < |argv|
  {
    var a := argv[i];
    if a == "-s" then i + 1 < |argv|
    else if a == "-a" || a == "-r" then i + 1 < |argv| && IsParam(argv[i + 1])
    else a == "-f"
  }

  /** The index of the next argument read as a flag. */
  function NextFlag(argv: seq<string>, i: nat): (r: nat)
    requires i < |argv|
    ensures i < r <= i + 2
  {
    if TakesNext(argv, i) then i + 2 else i + 1
  }

  /** The effect of the flag at index i. */
  function ApplyFlag(s: Settings, argv: seq<string>, i: nat, cwd: string): Settings
    requires i < |argv|
  {
    var a := argv[i];
    if a == "-v" || a == "-h" then s
    else if a == "-p" then s.(prompt := true)
    else if a == "-s" then
      if i + 1 < |argv| && |argv[i + 1]| > 0 && argv[i + 1][0] == 'c' then s.(dirForm := Cygwin)
      else s.(ok := false)
    else if a == "-d" then s.(oper := Dump)
    else if a == "-l" then s.(oper := List)
    else if a == "-a" || a == "-r" then
      if s.oper == NoOperation then
        s.(oper := if a == "-a" then Add else Remove,
           operDir := if TakesNext(argv, i) then argv[i + 1] else cwd)
      else s
    else if a == "-f" then
      if i + 1 < |argv| then s.(listFn := Some(argv[i + 1])) else s.(ok := false)
    else s.(ok := false)
  }

  /** The settings after reading argv from index i on, starting from s. */
  function Parse(s: Settings, argv: seq<string>, i: nat, cwd: string): Settings
    decreases |argv| - i
  {
    if i < |argv| then Parse(ApplyFlag(s, argv, i, cwd), argv, NextFlag(argv, i), cwd) else s
  }

  /** Reading from index i, the argument at index j is read as a flag. */
  predicate Reaches(argv: seq<string>, i: nat, j: nat)
    decreases j - i
  {
    i == j || (i < j && i < |argv| && Reaches(argv, NextFlag(argv, i), j))
  }

  /** A flag that leaves ret_val alone: a known flag, with its parameter
      where it needs one, and for -s a parameter starting with 'c'. */
  predicate Accepted(argv: seq<string>, j: nat)
    requires j < |argv|
  {
    var a := argv[j];
    || a == "-v" || a == "-h" || a == "-p" || a == "-d" || a == "-l" || a == "-a" || a == "-r"
    || (a == "-s" && j + 1 < |argv| && |argv[j + 1]| > 0 && argv[j + 1][0] == 'c')
    || (a == "-f" && j + 1 < |argv|)
  }

  /** Reaching j from i means j is i itself or is reached from the next flag. */
  lemma ReachesStep(argv: seq<string>, i: nat, j: nat)
    requires i < |argv|
    ensures Reaches(argv, i, j) <==> j == i || Reaches(argv, NextFlag(argv, i), j)
  {
    if Reaches(argv, NextFlag(argv, i), j) {
      assert NextFlag(argv, i) <= j;
    }
  }

  /** process_cmdln returns 1 exactly when every argument read as a flag is
      accepted: an unknown argument or a missing parameter clears the result
      for good but reading goes on, and an incompatible -a/-r never clears it. */
  lemma {:induction false} ParseOk(s: Settings, argv: seq<string>, i: nat, cwd: string)
    ensures Parse(s, argv, i, cwd).ok <==>
            s.ok && forall j: nat :: Reaches(argv, i, j) && j < |argv| ==> Accepted(argv, j)
    decreases |argv| - i
  {
    if i < |argv| {
      var n := NextFlag(argv, i);
      ParseOk(ApplyFlag(s, argv, i, cwd), argv, n, cwd);
      assert ApplyFlag(s, argv, i, cwd).ok == (s.ok && Accepted(argv, i));
      forall j: nat ensures Reaches(argv, i, j) <==> j == i || Reaches(argv, n, j) {
        ReachesStep(argv, i, j);
      }
    }
  }

  /** Once an operation is set it is never cleared, and the operation
      directory never changes again: later -a/-r are incompatible. */
  lemma {:induction false} OperDirFixedOnceSet(s: Settings, argv: seq<string>, i: nat, cwd: string)
    requires s.oper != NoOperation
    ensures Parse(s, argv, i, cwd).oper != NoOperation
    ensures Parse(s, argv, i, cwd).operDir == s.operDir
    decreases |argv| - i
  {
    if i < |argv| {
      OperDirFixedOnceSet(ApplyFlag(s, argv, i, cwd), argv, NextFlag(argv, i), cwd);
    }
  }

  /** With no -d or -l read as a flag, a set operation stays as it is. */
  lemma {:induction false} OperationKept(s: Settings, argv: seq<string>, i: nat, cwd: string)
    requires s.oper != NoOperation
    requires forall k: nat :: Reaches(argv, i, k) && k < |argv| ==> argv[k] != "-d" && argv[k] != "-l"
    ensures Parse(s, argv, i, cwd).oper == s.oper
    decreases |argv| - i
  {
    if i < |argv| {
      var n := NextFlag(argv, i);
      forall k: nat | Reaches(argv, n, k) ensures Reaches(argv, i, k) {
        ReachesStep(argv, i, k);
      }
      assert Reaches(argv, i, i);
      OperationKept(ApplyFlag(s, argv, i, cwd), argv, n, cwd);
    }
  }

  /** -d and -l overwrite the operation whatever it was: the last of them
      read as a flag decides it. */
  lemma {:induction false} LastDumpOrListWins(s: Settings, argv: seq<string>, i: nat, cwd: string, j: nat)
    requires Reaches(argv, i, j) && j < |argv| && (argv[j] == "-d" || argv[j] == "-l")
    requires forall k: nat :: Reaches(argv, i, k) && j < k < |argv| ==> argv[k] != "-d" && argv[k] != "-l"
    ensures Parse(s, argv, i, cwd).oper == if argv[j] == "-d" then Dump else List
    decreases |argv| - i
  {
    var n := NextFlag(argv, i);
    forall k: nat | Reaches(argv, n, k) ensures Reaches(argv, i, k) {
      ReachesStep(argv, i, k);
    }
    if i == j {
      forall k: nat | Reaches(argv, n, k) && k < |argv| ensures argv[k] != "-d" && argv[k] != "-l" {
        assert Reaches(argv, n, k) && n <= k;
      }
      OperationKept(ApplyFlag(s, argv, i, cwd), argv, n, cwd);
    } else {
      ReachesStep(argv, i, j);
      LastDumpOrListWins(ApplyFlag(s, argv, i, cwd), argv, n, cwd, j);
    }
  }

  /** The first -a or -r read as a flag, with no -d or -l before it, sets
      the operation and takes the next argument as the directory when it
      does not start with '-', the current directory otherwise. */
  lemma {:induction false} FirstAddOrRemove(s: Settings, argv: seq<string>, i: nat, cwd: string, j: nat)
    requires s.oper == NoOperation
    requires Reaches(argv, i, j) && j < |argv| && (argv[j] == "-a" || argv[j] == "-r")
    requires forall k: nat :: Reaches(argv, i, k) && k < j ==>
               argv[k] != "-a" && argv[k] != "-r" && argv[k] != "-d" && argv[k] != "-l"
    ensures Parse(s, argv, i, cwd).operDir ==
            if j + 1 < |argv| && IsParam(argv[j + 1]) then argv[j + 1] else cwd
    ensures (forall k: nat :: Reaches(argv, i, k) && j < k < |argv| ==> argv[k] != "-d" && argv[k] != "-l")
            ==> Parse(s, argv, i, cwd).oper == if argv[j] == "-a" then Add else Remove
    decreases |argv| - i
  {
    var n := NextFlag(argv, i);
    forall k: nat | Reaches(argv, n, k) ensures Reaches(argv, i, k) {
      ReachesStep(argv, i, k);
    }
    var s' := ApplyFlag(s, argv, i, cwd);
    if i == j {
      OperDirFixedOnceSet(s', argv, n, cwd);
      if forall k: nat :: Reaches(argv, i, k) && j < k < |argv| ==> argv[k] != "-d" && argv[k] != "-l" {
        forall k: nat | Reaches(argv, n, k) && k < |argv| ensures argv[k] != "-d" && argv[k] != "-l" {
          assert n <= k;
        }
        OperationKept(s', argv, n, cwd);
      }
    } else {
      ReachesStep(argv, i, j);
      assert Reaches(argv, i, i);
      FirstAddOrRemove(s', argv, n, cwd, j);
    }
  }

  /** With no -f read as a flag, the list file stays as it is. */
  lemma {:induction false} ListFnKept(s: Settings, argv: seq<string>, i: nat, cwd: string)
    requires forall k: nat :: Reaches(argv, i, k) && k < |argv| ==> argv[k] != "-f"
    ensures Parse(s, argv, i, cwd).listFn == s.listFn
    decreases |argv| - i
  {
    if i < |argv| {
      var n := NextFlag(argv, i);
      forall k: nat | Reaches(argv, n, k) ensures Reaches(argv, i, k) {
        ReachesStep(argv, i, k);
      }
      assert Reaches(argv, i, i);
      ListFnKept(ApplyFlag(s, argv, i, cwd), argv, n, cwd);
    }
  }

  /** The last "-f <fn>" read as a flag decides the list file. */
  lemma {:induction false} LastListFileWins(s: Settings, argv: seq<string>, i: nat, cwd: string, j: nat)
    requires Reaches(argv, i, j) && j + 1 < |argv| && argv[j] == "-f"
    requires forall k: nat :: Reaches(argv, i, k) && j < k < |argv| ==> argv[k] != "-f"
    ensures Parse(s, argv, i, cwd).listFn == Some(argv[j + 1])
    decreases |argv| - i
  {
    var n := NextFlag(argv, i);
    forall k: nat | Reaches(argv, n, k) ensures Reaches(argv, i, k) {
      ReachesStep(argv, i, k);
    }
    if i == j {
      forall k: nat | Reaches(argv, n, k) && k < |argv| ensures argv[k] != "-f" {
        assert n <= k;
      }
      ListFnKept(ApplyFlag(s, argv, i, cwd), argv, n, cwd);
    } else {
      ReachesStep(argv, i, j);
      LastListFileWins(ApplyFlag(s, argv, i, cwd), argv, n, cwd, j);
    }
  }

  /** wd_prompt ends up set exactly when it was set before or some -p is
      read as a flag; nothing clears it. */
  lemma {:induction false} PromptSet(s: Settings, argv: seq<string>, i: nat, cwd: string)
    ensures Parse(s, argv, i, cwd).prompt <==>
            s.prompt || exists j: nat :: Reaches(argv, i, j) && j < |argv| && argv[j] == "-p"
    decreases |argv| - i
  {
    if i < |argv| {
      var n := NextFlag(argv, i);
      PromptSet(ApplyFlag(s, argv, i, cwd), argv, n, cwd);
      forall j: nat ensures Reaches(argv, i, j) <==> j == i || Reaches(argv, n, j) {
        ReachesStep(argv, i, j);
      }
      if argv[i] == "-p" {
        assert Reaches(argv, i, i);
      }
    } else {
      forall j: nat | Reaches(argv, i, j) ensures j == i {
      }
    }
  }

  /** An -s read as a flag whose parameter starts with 'c'. */
  predicate CygwinFlag(argv: seq<string>, j: nat)
    requires j < |argv|
  {
    argv[j] == "-s" && j + 1 < |argv| && |argv[j + 1]| > 0 && argv[j + 1][0] == 'c'
  }

  /** wd_dir_form becomes the Cygwin form exactly when some -s read as a
      flag has a parameter starting with 'c'; otherwise it keeps its value,
      since a rejected -s parameter leaves it alone. */
  lemma {:induction false} CygwinFormSet(s: Settings, argv: seq<string>, i: nat, cwd: string)
    ensures Parse(s, argv, i, cwd).dirForm ==
            if exists j: nat :: Reaches(argv, i, j) && j < |argv| && CygwinFlag(argv, j) then Cygwin
            else s.dirForm
    decreases |argv| - i
  {
    if i < |argv| {
      var n := NextFlag(argv, i);
      CygwinFormSet(ApplyFlag(s, argv, i, cwd), argv, n, cwd);
      forall j: nat ensures Reaches(argv, i, j) <==> j == i || Reaches(argv, n, j) {
        ReachesStep(argv, i, j);
      }
      if CygwinFlag(argv, i) {
        assert Reaches(argv, i, i);
      }
    } else {
      forall j: nat | Reaches(argv, i, j) ensures j == i {
      }
    }
  }

  /** What get_home does with list_fn: stitches a new value into it, or
      leaves it alone, or hands a NULL home directory to strlen. */
  datatype HomeOutcome = ListFile(listFn: Option<string>) | NullHomeToStrlen

  /** get_home on POSIX as written, given the home directory $HOME or the
      password database gave: success is set only when both gave none. */
  function PosixGetHomeAsWritten(homedir: Option<string>, listFn: Option<string>): (r: HomeOutcome)
    ensures r.ListFile? ==> r.listFn == listFn
  {
    var success := homedir.None?;
    if !success then ListFile(listFn)
    else NullHomeToStrlen
  }

  /** As written, a found home directory never reaches list_fn, and a
      missing one is passed to strlen as NULL, whereas the stitching the
      function exists for gives the home directory followed by "/.wd_list". */
  lemma PosixGetHomeInverted(home: string, listFn: Option<string>)
    ensures PosixGetHomeAsWritten(Some(home), listFn) == ListFile(listFn)
    ensures listFn == None ==> PosixGetHomeAsWritten(Some(home), listFn) != ListFile(Some(home + DEFAULT_LIST_FILE))
    ensures PosixGetHomeAsWritten(None, listFn) == NullHomeToStrlen
  {
  }

  class Cmdln {
    var wdOper: Operation
    var listFn: Option<string>
    var wdOperDir: string
    var wdBookmarkName: Option<string>
    var wdPrompt: bool
    var wdDirForm: DirForm

    /** wd_oper_dir is a MAXPATHLEN buffer holding a NUL-terminated string. */
    ghost predicate Valid()
      reads this
    {
      |wdOperDir| < MAXPATHLEN
    }

    ghost function Current(ok: bool): Settings
      reads this
    {
      Settings(wdOper, wdOperDir, listFn, wdPrompt, wdDirForm, ok)
    }

    /** The globals before init_cmdln runs: zero-initialised, list_fn NULL. */
    constructor ()
      ensures Valid()
      ensures wdOper == NoOperation && listFn == None && wdOperDir == ""
      ensures wdBookmarkName == None && !wdPrompt && wdDirForm == NoForm
    {
      wdOper := NoOperation;
      listFn := None;
      wdOperDir := "";
      wdBookmarkName := None;
      wdPrompt := false;
      wdDirForm := NoForm;
    }

    /** get_home, given the home directory the platform lookup found (None
        when it found none): list_fn becomes the home directory followed by
        "/.wd_list"; with no home directory nothing changes. */
    method GetHome(home: Option<string>)
      modifies this
      ensures home.Some? ==> listFn == Some(home.value + DEFAULT_LIST_FILE)
      ensures home.None? ==> listFn == old(listFn)
      ensures wdOper == old(wdOper) && wdOperDir == old(wdOperDir) && wdPrompt == old(wdPrompt)
      ensures wdBookmarkName == old(wdBookmarkName) && wdDirForm == old(wdDirForm)
    {
      if home.Some? {
        listFn := Some(home.value + DEFAULT_LIST_FILE);
      }
    }

    /** init_cmdln: get_home, then no operation, no prompt, no bookmark name
        and no path form. */
    method InitCmdln(home: Option<string>)
      requires Valid()
      modifies this
      ensures Valid()
      ensures home.Some? ==> listFn == Some(home.value + DEFAULT_LIST_FILE)
      ensures home.None? ==> listFn == old(listFn)
      ensures wdOper == NoOperation && !wdPrompt && wdBookmarkName == None && wdDirForm == NoForm
      ensures wdOperDir == old(wdOperDir)
    {
      GetHome(home);
      wdOper := NoOperation;
      wdPrompt := false;
      wdBookmarkName := None;
      wdDirForm := NoForm;
    }

    /** One pass of the loop in process_cmdln: the flag at arg_loop, with
        the parameter it takes. Returns the index of the next flag. */
    method ReadFlag(argv: seq<string>, at: nat, cwd: string, ok: bool) returns (next: nat, retVal: bool)
      requires Valid() && 0 < at < |argv|
      requires OperDirsFit(argv) && |cwd| < MAXPATHLEN
      modifies this
      ensures Valid() && wdBookmarkName == old(wdBookmarkName)
      ensures Current(retVal) == ApplyFlag(old(Current(ok)), argv, at, cwd)
      ensures next == NextFlag(argv, at)
    {
      retVal := ok;
      var argLoop := at;
      var thisArg := argv[argLoop];
      if thisArg == "-v" {
      } else if thisArg == "-h" {
      } else if thisArg == "-p" {
        wdPrompt := true;
      } else if thisArg == "-s" {
        if argLoop + 1 < |argv| {
          argLoop := argLoop + 1;
          var param := argv[argLoop];
          if |param| > 0 && param[0] == 'c' {
            wdDirForm := Cygwin;
          } else {
            retVal := false;
          }
        } else {
          retVal := false;
        }
      } else if thisArg == "-d" {
        wdOper := Dump;
      } else if thisArg == "-l" {
        wdOper := List;
      } else if thisArg == "-a" || thisArg == "-r" {
        if wdOper == NoOperation {
          if thisArg[1] == 'a' {
            wdOper := Add;
          } else {
            wdOper := Remove;
          }
          if argLoop + 1 < |argv| && IsParam(argv[argLoop + 1]) {
            argLoop := argLoop + 1;
            wdOperDir := argv[argLoop];
          } else {
            wdOperDir := cwd;
          }
        } else {
          if argLoop + 1 < |argv| && IsParam(argv[argLoop + 1]) {
            argLoop := argLoop + 1;
          }
        }
      } else if thisArg == "-f" {
        argLoop := argLoop + 1;
        if argLoop < |argv| {
          listFn := Some(argv[argLoop]);
        } else {
          retVal := false;
        }
      } else {
        retVal := false;
      }
      next := argLoop + 1;
    }

    /** process_cmdln over argv (argv[0] is the program name), given the
        current directory: the settings and the result are those of Parse.
        The directory -a or -r copies, and the current directory, fit
        wd_oper_dir. */
    method ProcessCmdln(argv: seq<string>, cwd: string) returns (retVal: bool)
      requires Valid() && OperDirsFit(argv) && |cwd| < MAXPATHLEN
      modifies this
      ensures Valid()
      ensures Current(retVal) == Parse(old(Current(true)), argv, 1, cwd)
      ensures wdBookmarkName == old(wdBookmarkName)
    {
      retVal := true;
      var argLoop := 1;
      while argLoop < |argv|
        invariant 1 <= argLoop && Valid() && wdBookmarkName == old(wdBookmarkName)
        invariant Parse(Current(retVal), argv, argLoop, cwd) == Parse(old(Current(true)), argv, 1, cwd)
        decreases |argv| - argLoop
      {
        argLoop, retVal := ReadFlag(argv, argLoop, cwd, retVal);
      }
    }
  }
}
