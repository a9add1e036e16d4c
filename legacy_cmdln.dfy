/** The command-line parser of the older top-level cmdln.c: only -v, -d,
    -a [dir] and -l <fn>, with no check that -a and -d are compatible.
    As in Cmdln, the globals (wd_oper, wd_oper_dir, list_fn) are the fields
    of a class, the getcwd() result and the home lookup are parameters, and
    process_cmdln is specified by a left-to-right Parse. */
module LegacyCmdln {
  import opened Basics
  import Newer = Cmdln

  /** wd_oper_t as this revision uses it. */
  datatype Operation = NoOperation | Add | Dump

  /** The settings process_cmdln touches, and its result ret_val. */
  datatype Settings = Settings(oper: Operation, operDir: string, listFn: Option<string>, ok: bool)

  /** Every argument after an -a fits the MAXPATHLEN buffer wd_oper_dir
      that strcpy copies it into. */
  predicate OperDirsFit(argv: seq<string>)
  {
    forall k :: 0 < k < |argv| - 1 && argv[k] == "-a" ==> |argv[k + 1]| < MAXPATHLEN
  }

  /** Whether the flag at index i takes argv[i + 1] with it. "-l" always
      steps over the next index, even when there is none. */
  predicate TakesNext(argv: seq<string>, i: nat)
    requires i < |argv|
  {
    if argv[i] == "-a" then i + 1 < |argv| && Newer.IsParam(argv[i + 1]) else argv[i] == "-l"
  }

  /** The index of the next argument read as a flag. */
  function NextFlag(argv: seq<string>, i: nat): (r: nat)
    requires i < |argv|
    ensures i < r <= i + 2
  {
    if TakesNext(argv, i) then i + 2 else i + 1
  }

  /** The effect of the flag at index i. */
  function ApplyFlag(s: Settings, argv: seq<string>, i: nat, cwd: string): Settings
    requires i < |argv|
  {
    var a := argv[i];
    if a == "-v" then s
    else if a == "-d" then s.(oper := Dump)
    else if a == "-a" then s.(oper := Add, operDir := if TakesNext(argv, i) then argv[i + 1] else cwd)
    else if a == "-l" then
      if i + 1 < |argv| then s.(listFn := Some(argv[i + 1])) else s.(ok := false)
    else s.(ok := false)
  }

  /** The settings after reading argv from index i on, starting from s. */
  function Parse(s: Settings, argv: seq<string>, i: nat, cwd: string): Settings
    decreases |argv| - i
  {
    if i < |argv| then Parse(ApplyFlag(s, argv, i, cwd), argv, NextFlag(argv, i), cwd) else s
  }

  /** Reading from index i, the argument at index j is read as a flag. */
  predicate Reaches(argv: seq<string>, i: nat, j: nat)
    decreases j - i
  {
    i == j || (i < j && i < |argv| && Reaches(argv, NextFlag(argv, i), j))
  }

  /** A flag that leaves ret_val alone. */
  predicate Accepted(argv: seq<string>, j: nat)
    requires j < |argv|
  {
    argv[j] == "-v" || argv[j] == "-d" || argv[j] == "-a" || (argv[j] == "-l" && j + 1 < |argv|)
  }

  lemma ReachesStep(argv: seq<string>, i: nat, j: nat)
    requires i < |argv|
    ensures Reaches(argv, i, j) <==> j == i || Reaches(argv, NextFlag(argv, i), j)
  {
    if Reaches(argv, NextFlag(argv, i), j) {
      assert NextFlag(argv, i) <= j;
    }
  }

  /** process_cmdln returns 1 exactly when every argument read as a flag is
      accepted; a rejected one clears the result but reading goes on. */
  lemma {:induction false} ParseOk(s: Settings, argv: seq<string>, i: nat, cwd: string)
    ensures Parse(s, argv, i, cwd).ok <==>
            s.ok && forall j: nat :: Reaches(argv, i, j) && j < |argv| ==> Accepted(argv, j)
    decreases |argv| - i
  {
    if i < |argv| {
      var n := NextFlag(argv, i);
      ParseOk(ApplyFlag(s, argv, i, cwd), argv, n, cwd);
      assert ApplyFlag(s, argv, i, cwd).ok == (s.ok && Accepted(argv, i));
      forall j: nat ensures Reaches(argv, i, j) <==> j == i || Reaches(argv, n, j) {
        ReachesStep(argv, i, j);
      }
    }
  }

  /** With no -d or -a read as a flag, the operation and its directory stay
      as they are. */
  lemma {:induction false} OperationKept(s: Settings, argv: seq<string>, i: nat, cwd: string)
    requires forall k: nat :: Reaches(argv, i, k) && k < |argv| ==> argv[k] != "-d" && argv[k] != "-a"
    ensures Parse(s, argv, i, cwd).oper == s.oper
    ensures Parse(s, argv, i, cwd).operDir == s.operDir
    decreases |argv| - i
  {
    if i < |argv| {
      var n := NextFlag(argv, i);
      forall k: nat | Reaches(argv, n, k) ensures Reaches(argv, i, k) {
        ReachesStep(argv, i, k);
      }
      assert Reaches(argv, i, i);
      OperationKept(ApplyFlag(s, argv, i, cwd), argv, n, cwd);
    }
  }

  /** The last -d or -a read as a flag decides the operation; when it is
      an -a, its parameter (or the current directory) is the directory. */
  lemma {:induction false} LastOperationWins(s: Settings, argv: seq<string>, i: nat, cwd: string, j: nat)
    requires Reaches(argv, i, j) && j < |argv| && (argv[j] == "-d" || argv[j] == "-a")
    requires forall k: nat :: Reaches(argv, i, k) && j < k < |argv| ==> argv[k] != "-d" && argv[k] != "-a"
    ensures Parse(s, argv, i, cwd).oper == if argv[j] == "-d" then Dump else Add
    ensures argv[j] == "-a" ==>
              Parse(s, argv, i, cwd).operDir ==
              if j + 1 < |argv| && Newer.IsParam(argv[j + 1]) then argv[j + 1] else cwd
    decreases |argv| - i
  {
    var n := NextFlag(argv, i);
    forall k: nat | Reaches(argv, n, k) ensures Reaches(argv, i, k) {
      ReachesStep(argv, i, k);
    }
    if i == j {
      forall k: nat | Reaches(argv, n, k) && k < |argv| ensures argv[k] != "-d" && argv[k] != "-a" {
        assert n <= k;
      }
      OperationKept(ApplyFlag(s, argv, i, cwd), argv, n, cwd);
    } else {
      ReachesStep(argv, i, j);
      LastOperationWins(ApplyFlag(s, argv, i, cwd), argv, n, cwd, j);
    }
  }

  /** With no -l read as a flag, the list file stays as it is. */
  lemma {:induction false} ListFnKept(s: Settings, argv: seq<string>, i: nat, cwd: string)
    requires forall k: nat :: Reaches(argv, i, k) && k < |argv| ==> argv[k] != "-l"
    ensures Parse(s, argv, i, cwd).listFn == s.listFn
    decreases |argv| - i
  {
    if i < |argv| {
      var n := NextFlag(argv, i);
      forall k: nat | Reaches(argv, n, k) ensures Reaches(argv, i, k) {
        ReachesStep(argv, i, k);
      }
      assert Reaches(argv, i, i);
      ListFnKept(ApplyFlag(s, argv, i, cwd), argv, n, cwd);
    }
  }

  /** The last "-l <fn>" read as a flag decides the list file. */
  lemma {:induction false} LastListFileWins(s: Settings, argv: seq<string>, i: nat, cwd: string, j: nat)
    requires Reaches(argv, i, j) && j + 1 < |argv| && argv[j] == "-l"
    requires forall k: nat :: Reaches(argv, i, k) && j < k < |argv| ==> argv[k] != "-l"
    ensures Parse(s, argv, i, cwd).listFn == Some(argv[j + 1])
    decreases |argv| - i
  {
    var n := NextFlag(argv, i);
    forall k: nat | Reaches(argv, n, k) ensures Reaches(argv, i, k) {
      ReachesStep(argv, i, k);
    }
    if i == j {
      forall k: nat | Reaches(argv, n, k) && k < |argv| ensures argv[k] != "-l" {
        assert n <= k;
      }
      ListFnKept(ApplyFlag(s, argv, i, cwd), argv, n, cwd);
    } else {
      ReachesStep(argv, i, j);
      LastListFileWins(ApplyFlag(s, argv, i, cwd), argv, n, cwd, j);
    }
  }

  class Cmdln {
    var wdOper: Operation
    var listFn: Option<string>
    var wdOperDir: string

    ghost predicate Valid()
      reads this
    {
      |wdOperDir| < MAXPATHLEN
    }

    ghost function Current(ok: bool): Settings
      reads this
    {
      Settings(wdOper, wdOperDir, listFn, ok)
    }

    /** The globals before init_cmdln runs: zero-initialised, list_fn NULL. */
    constructor ()
      ensures Valid()
      ensures wdOper == NoOperation && listFn == None && wdOperDir == ""
    {
      wdOper := NoOperation;
      listFn := None;
      wdOperDir := "";
    }

    /** get_home, given the home directory $HOME or the password database
        gave (None when neither did): list_fn becomes the home directory
        followed by "/.wd_list"; with no home directory nothing changes. */
    method GetHome(home: Option<string>)
      modifies this
      ensures home.Some? ==> listFn == Some(home.value + Newer.DEFAULT_LIST_FILE)
      ensures home.None? ==> listFn == old(listFn)
      ensures wdOper == old(wdOper) && wdOperDir == old(wdOperDir)
    {
      if home.Some? {
        listFn := Some(home.value + Newer.DEFAULT_LIST_FILE);
      }
    }

    /** init_cmdln: get_home, then no operation. */
    method InitCmdln(home: Option<string>)
      requires Valid()
      modifies this
      ensures Valid()
      ensures home.Some? ==> listFn == Some(home.value + Newer.DEFAULT_LIST_FILE)
      ensures home.None? ==> listFn == old(listFn)
      ensures wdOper == NoOperation && wdOperDir == old(wdOperDir)
    {
      GetHome(home);
      wdOper := NoOperation;
    }

    /** process_cmdln over argv (argv[0] is the program name), given the
        current directory: the settings and the result are those of Parse.
        The directory -a copies, and the current directory, fit wd_oper_dir. */
    method ProcessCmdln(argv: seq<string>, cwd: string) returns (retVal: bool)
      requires Valid() && OperDirsFit(argv) && |cwd| < MAXPATHLEN
      modifies this
      ensures Valid()
      ensures Current(retVal) == Parse(old(Current(true)), argv, 1, cwd)
    {
      retVal := true;
      var argLoop := 1;
      while argLoop < |argv|
        invariant 1 <= argLoop && Valid()
        invariant Parse(Current(retVal), argv, argLoop, cwd) == Parse(old(Current(true)), argv, 1, cwd)
        decreases |argv| - argLoop
      {
        ghost var before, at := Current(retVal), argLoop;
        var thisArg := argv[argLoop];
        if thisArg == "-v" {
        } else if thisArg == "-d" {
          wdOper := Dump;
        } else if thisArg == "-a" {
          wdOper := Add;
          if argLoop + 1 < |argv| && Newer.IsParam(argv[argLoop + 1]) {
            argLoop := argLoop + 1;
            wdOperDir := argv[argLoop];
          } else {
            wdOperDir := cwd;
          }
        } else if thisArg == "-l" {
          argLoop := argLoop + 1;
          if argLoop < |argv| {
            listFn := Some(argv[argLoop]);
          } else {
            retVal := false;
          }
        } else {
          retVal := false;
        }
        argLoop := argLoop + 1;
        assert Current(retVal) == ApplyFlag(before, argv, at, cwd) && argLoop == NextFlag(argv, at);
      }
    }
  }
}
