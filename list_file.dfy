/** The bookmark list file: two '#' header lines, then one directory per line.
    Both revisions of dir_list.c read and write exactly this format with the
    same code, so it is defined once here.

    A file is modelled as the sequence of strings that successive fgets calls
    return: each one is non-empty, fits the MAXPATHLEN buffer, and carries its
    '\n' (if any) at its very end. Splitting the byte stream into such pieces is
    not modelled. fgets copies NUL characters like any other, but the loader
    measures the line with strlen, so it sees only what precedes the first NUL. */
module ListFile {
  import opened Basics

  const FILE_HEADER_DESC_STRING: string := "# WD directory list file"
  const FILE_HEADER_VER_STRING: string := "# File format: version 1"

  /** The characters the loader strips from the end of a line. */
  predicate IsEol(c: char)
  {
    c == '\r' || c == '\n'
  }

  /** A string one fgets(path, MAXPATHLEN, file) call can deliver. */
  predicate FgetsLine(l: string)
  {
    0 < |l| < MAXPATHLEN && '\n' !in l[..|l| - 1]
  }

  /** The strings successive fgets calls deliver from one file: each ends
      at a newline, or fills the buffer, or is the last one in the file. */
  predicate FgetsLines(lines: seq<string>)
  {
    && (forall k :: 0 <= k < |lines| ==> FgetsLine(lines[k]))
    && (forall k :: 0 <= k < |lines| - 1 ==>
          lines[k][|lines[k]| - 1] == '\n' || |lines[k]| == MAXPATHLEN - 1)
  }

  /** strlen: the number of characters before the first NUL. */
  function CLength(l: string): (n: nat)
    ensures n <= |l|
    ensures n < |l| ==> l[n] == '\0'
  {
    if l == [] || l[0] == '\0' then 0 else 1 + CLength(l[1..])
  }

  /** strlen stops at the first NUL: none comes before it, so a string
      without NUL is measured whole. */
  lemma {:induction false} CLengthFirstNul(l: string)
    ensures forall k :: 0 <= k < CLength(l) ==> l[k] != '\0'
    ensures '\0' !in l ==> CLength(l) == |l|
  {
    if l != [] && l[0] != '\0' {
      CLengthFirstNul(l[1..]);
      forall k | 0 < k < CLength(l) ensures l[k] != '\0' {
        assert l[k] == l[1..][k - 1];
      }
    }
  }

  /** Every line is non-empty as a C string: its first character exists and
      is not NUL. For a line starting with NUL, strlen(path) - 1 wraps round
      and the trimming loop indexes far outside the buffer. */
  predicate NonEmptyLines(lines: seq<string>)
  {
    forall k :: 0 <= k < |lines| ==> |lines[k]| > 0 && lines[k][0] != '\0'
  }

  /** The line with its trailing CR/LF characters stripped, except that the
      character at position 0 is never stripped. */
  function TrimEol(l: string): (r: string)
    requires |l| > 0
    ensures 0 < |r| <= |l| && r == l[..|r|]
    ensures |r| > 1 ==> !IsEol(r[|r| - 1])
    ensures forall k :: |r| <= k < |l| ==> IsEol(l[k])
    decreases |l|
  {
    if |l| > 1 && IsEol(l[|l| - 1]) then TrimEol(l[..|l| - 1]) else l
  }

  /** The trimming loop of load_dir_list: it walks back from the last
      character, overwriting CR/LF with NUL, and stops at the first other
      character or at position 1. The NULs cut the string at len. */
  method TrimEolLength(path: string) returns (len: nat)
    requires |path| > 0
    ensures 0 < len <= |path| && path[..len] == TrimEol(path)
  {
    len := |path|;
    var trimmer := |path| - 1;
    while trimmer > 0
      invariant 0 <= trimmer < |path| && len == trimmer + 1
      invariant TrimEol(path[..len]) == TrimEol(path)
      decreases trimmer
    {
      if IsEol(path[trimmer]) {
        len := trimmer;
        trimmer := trimmer - 1;
      } else {
        break;
      }
    }
    assert path[..len][..len - 1] == path[..len - 1];
  }

  /** What the loader appends for one line: nothing for a comment line,
      otherwise the line up to its first NUL, trimmed. */
  function LineEntry(l: string): seq<string>
    requires |l| > 0 && l[0] != '\0'
  {
    if l[0] == '#' then [] else [TrimEol(l[..CLength(l)])]
  }

  /** The directories load_dir_list appends, in file order. */
  function LoadEntries(lines: seq<string>): seq<string>
    requires NonEmptyLines(lines)
  {
    if lines == [] then []
    else LoadEntries(lines[..|lines| - 1]) + LineEntry(lines[|lines| - 1])
  }

  /** The lines save_dir_list writes for the entries, in index order. */
  function EntryLines(dirs: seq<string>): seq<string>
  {
    if dirs == [] then [] else EntryLines(dirs[..|dirs| - 1]) + [dirs[|dirs| - 1] + "\n"]
  }

  /** Everything save_dir_list writes: the two header lines, then the entries. */
  function SavedLines(dirs: seq<string>): seq<string>
  {
    [FILE_HEADER_DESC_STRING + "\n", FILE_HEADER_VER_STRING + "\n"] + EntryLines(dirs)
  }

  lemma {:induction false} EntryLinesShape(dirs: seq<string>)
    ensures |EntryLines(dirs)| == |dirs|
    ensures forall k :: 0 <= k < |dirs| ==> EntryLines(dirs)[k] == dirs[k] + "\n"
  {
    if dirs != [] {
      EntryLinesShape(dirs[..|dirs| - 1]);
    }
  }

  /** Loading is line by line: the entries of a concatenation are the
      concatenated entries. */
  lemma {:induction false} LoadEntriesAppend(a: seq<string>, b: seq<string>)
    requires NonEmptyLines(a) && NonEmptyLines(b)
    ensures NonEmptyLines(a + b)
    ensures LoadEntries(a + b) == LoadEntries(a) + LoadEntries(b)
    decreases |b|
  {
    if b != [] {
      var b' := b[..|b| - 1];
      assert (a + b)[..|a + b| - 1] == a + b';
      LoadEntriesAppend(a, b');
    } else {
      assert a + b == a;
    }
  }

  /** Reading one more line adds what that line gives. */
  lemma LoadEntriesNext(lines: seq<string>, i: nat)
    requires NonEmptyLines(lines) && i < |lines|
    ensures NonEmptyLines(lines[..i]) && NonEmptyLines(lines[..i + 1])
    ensures LoadEntries(lines[..i + 1]) == LoadEntries(lines[..i]) + LineEntry(lines[i])
    ensures |LoadEntries(lines[..i + 1])| <= |LoadEntries(lines)|
  {
    assert lines[..i + 1][..i] == lines[..i];
    LoadEntriesPrefix(lines, i + 1);
  }

  /** Reading a prefix of the file never yields more entries than the whole. */
  lemma LoadEntriesPrefix(lines: seq<string>, n: nat)
    requires NonEmptyLines(lines) && n <= |lines|
    ensures |LoadEntries(lines[..n])| <= |LoadEntries(lines)|
  {
    assert lines == lines[..n] + lines[n..];
    LoadEntriesAppend(lines[..n], lines[n..]);
  }

  /** Every loaded entry is non-empty and does not start with '#': an empty
      entry or one that starts with '#' can never come back from a file. */
  lemma {:induction false} LoadedEntryShape(lines: seq<string>)
    requires NonEmptyLines(lines)
    ensures forall e :: e in LoadEntries(lines) ==> 0 < |e| && e[0] != '#'
  {
    if lines != [] {
      LoadedEntryShape(lines[..|lines| - 1]);
    }
  }

  /** An entry that survives save then load unchanged: non-empty, not a
      comment, and not ending in CR/LF beyond its first character. */
  predicate Reloads(d: string)
  {
    0 < |d| && d[0] != '#' && (|d| == 1 || !IsEol(d[|d| - 1]))
  }

  lemma ReloadsOne(d: string)
    requires '\0' !in d
    ensures NonEmptyLines([d + "\n"])
    ensures LineEntry(d + "\n") == [d] <==> Reloads(d)
  {
    var l := d + "\n";
    assert '\0' !in l;
    CLengthFirstNul(l);
    assert l[..CLength(l)] == l;
    if |d| > 0 {
      assert l[..|l| - 1] == d;
      assert l[0] == d[0];
      if d[0] != '#' && !(|d| == 1 || !IsEol(d[|d| - 1])) {
        assert TrimEol(d) != d;
      }
    } else {
      assert l[0] == '\n';
    }
  }

  /** The entry lines of C strings are non-empty C strings. */
  lemma EntryLinesLoadable(dirs: seq<string>)
    requires forall d :: d in dirs ==> '\0' !in d
    ensures NonEmptyLines(EntryLines(dirs))
  {
    EntryLinesShape(dirs);
    forall k | 0 <= k < |dirs| ensures |EntryLines(dirs)[k]| > 0 && EntryLines(dirs)[k][0] != '\0' {
      assert dirs[k] in dirs;
      assert (dirs[k] + "\n")[0] != '\0';
    }
  }

  /** Saving one more entry adds one line, which loads on its own. */
  lemma EntryLinesSnoc(pre: seq<string>, d: string)
    requires forall e :: e in pre + [d] ==> '\0' !in e
    ensures NonEmptyLines(EntryLines(pre)) && NonEmptyLines(EntryLines(pre + [d]))
    ensures (d + "\n")[0] != '\0'
    ensures LoadEntries(EntryLines(pre + [d])) == LoadEntries(EntryLines(pre)) + LineEntry(d + "\n")
    ensures |LineEntry(d + "\n")| <= 1
    ensures LineEntry(d + "\n") == [d] <==> Reloads(d)
  {
    assert forall e :: e in pre ==> e in pre + [d];
    assert d in pre + [d];
    EntryLinesLoadable(pre);
    EntryLinesLoadable(pre + [d]);
    ReloadsOne(d);
    var lines := EntryLines(pre + [d]);
    assert (pre + [d])[..|pre + [d]| - 1] == pre;
    assert lines == EntryLines(pre) + [d + "\n"];
    assert lines[..|lines| - 1] == EntryLines(pre);
  }

  /** Reading back the entry lines of C strings never yields more entries
      than were written, and yields exactly them iff every entry reloads. */
  lemma {:induction false} LoadEntryLines(dirs: seq<string>)
    requires forall d :: d in dirs ==> '\0' !in d
    ensures NonEmptyLines(EntryLines(dirs))
    ensures |LoadEntries(EntryLines(dirs))| <= |dirs|
    ensures (forall d :: d in dirs ==> Reloads(d)) ==> LoadEntries(EntryLines(dirs)) == dirs
    ensures LoadEntries(EntryLines(dirs)) == dirs ==> forall d :: d in dirs ==> Reloads(d)
  {
    EntryLinesLoadable(dirs);
    if dirs != [] {
      var pre, d := dirs[..|dirs| - 1], dirs[|dirs| - 1];
      assert dirs == pre + [d];
      assert forall e :: e in pre ==> e in dirs;
      LoadEntryLines(pre);
      EntryLinesSnoc(pre, d);
      var e := LineEntry(d + "\n");
      if LoadEntries(EntryLines(dirs)) == dirs {
        assert LoadEntries(EntryLines(pre)) == pre && e == [d];
        forall x | x in dirs ensures Reloads(x) {
          if x != d {
            assert x in pre;
          }
        }
      }
      if forall x :: x in dirs ==> Reloads(x) {
        assert LoadEntries(EntryLines(pre)) == pre && e == [d];
      }
    }
  }

  /** An entry save_dir_list writes as exactly one line that fgets reads back
      whole: a C string (no NUL) without a newline, short enough to fit the
      MAXPATHLEN buffer together with its '\n'. */
  predicate SavedWhole(d: string)
  {
    '\0' !in d && '\n' !in d && |d| + 1 < MAXPATHLEN
  }

  /** The header lines add no entries: loading a saved file gives what
      loading its entry lines gives. */
  lemma SavedLinesLoad(dirs: seq<string>)
    requires forall d :: d in dirs ==> '\0' !in d
    ensures NonEmptyLines(SavedLines(dirs)) && NonEmptyLines(EntryLines(dirs))
    ensures LoadEntries(SavedLines(dirs)) == LoadEntries(EntryLines(dirs))
  {
    var header := [FILE_HEADER_DESC_STRING + "\n", FILE_HEADER_VER_STRING + "\n"];
    EntryLinesLoadable(dirs);
    LoadEntriesAppend(header, EntryLines(dirs));
    assert header[0][0] == '#' && header[1][0] == '#';
    assert header[..1][..0] == [] && header[..1] == [header[0]];
    assert LoadEntries(header[..1]) == [];
    assert LoadEntries(header) == [];
  }

  /** For entries that are saved as one line each, the saved file is one
      fgets reads back line by line, and loading it gives back exactly the
      entries saved if and only if every entry is non-empty, does not start
      with '#' and does not end in CR past its first character. */
  lemma SaveLoadRoundTrip(dirs: seq<string>)
    requires forall d :: d in dirs ==> SavedWhole(d)
    ensures FgetsLines(SavedLines(dirs)) && NonEmptyLines(SavedLines(dirs))
    ensures LoadEntries(SavedLines(dirs)) == dirs <==> forall d :: d in dirs ==> Reloads(d)
  {
    assert forall d :: d in dirs ==> '\0' !in d && '\n' !in d && |d| + 1 < MAXPATHLEN;
    SavedLinesReadable(dirs);
    LoadEntryLines(dirs);
    SavedLinesLoad(dirs);
  }

  /** A line without a newline, given its newline, is one fgets delivers
      whole when it fits the buffer. */
  lemma TerminatedLineReadable(d: string)
    requires '\n' !in d && |d| + 1 < MAXPATHLEN
    ensures FgetsLine(d + "\n")
  {
    assert (d + "\n")[..|d|] == d;
  }

  /** The saved lines are also lines fgets would read back one by one when
      no entry holds a newline and each fits the buffer with its '\n'. */
  lemma SavedLinesReadable(dirs: seq<string>)
    requires forall d :: d in dirs ==> '\n' !in d && |d| + 1 < MAXPATHLEN
    ensures FgetsLines(SavedLines(dirs))
  {
    EntryLinesShape(dirs);
    HeaderLinesReadable();
    var lines := SavedLines(dirs);
    forall k | 2 <= k < |lines| ensures FgetsLine(lines[k]) {
      assert dirs[k - 2] in dirs;
      TerminatedLineReadable(dirs[k - 2]);
    }
  }

  /** The two header lines are lines fgets delivers whole. */
  lemma HeaderLinesReadable()
    ensures FgetsLine(FILE_HEADER_DESC_STRING + "\n") && FgetsLine(FILE_HEADER_VER_STRING + "\n")
  {
    assert forall k :: 0 <= k < |FILE_HEADER_DESC_STRING| ==> FILE_HEADER_DESC_STRING[k] != '\n';
    assert forall k :: 0 <= k < |FILE_HEADER_VER_STRING| ==> FILE_HEADER_VER_STRING[k] != '\n';
    TerminatedLineReadable(FILE_HEADER_DESC_STRING);
    TerminatedLineReadable(FILE_HEADER_VER_STRING);
  }
}
