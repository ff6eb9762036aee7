/** The logger's file output: lines appended to one file, and archives shifted along when it is full.

    The directory is a map from file number to lines: 0 is the log file itself and k its archive with the
    suffix ".k".  File operations are taken to succeed. */
module LogRotation {
  type Files = map<nat, seq<string>>

  datatype Level = DEBUG | INFO | WARN | ERROR | FATAL

  function Severity(l: Level): nat {
    match l
    case DEBUG => 0
    case INFO => 1
    case WARN => 2
    case ERROR => 3
    case FATAL => 4
  }

  function LevelToString(l: Level): string {
    match l
    case DEBUG => "DEBUG"
    case INFO => "INFO "
    case WARN => "WARN "
    case ERROR => "ERROR"
    case FATAL => "FATAL"
  }

  /** The five levels are strictly ordered, and their names have five characters and differ. */
  lemma LevelsDiffer(l: Level, m: Level)
    ensures Severity(DEBUG) < Severity(INFO) < Severity(WARN) < Severity(ERROR) < Severity(FATAL)
    ensures |LevelToString(l)| == 5 && (LevelToString(l) == LevelToString(m) ==> l == m)
    ensures LevelToString(DEBUG) == "DEBUG" && LevelToString(INFO) == "INFO " && LevelToString(WARN) == "WARN "
    ensures LevelToString(ERROR) == "ERROR" && LevelToString(FATAL) == "FATAL"
  {
  }

  /** What a line takes in the file, with its newline. */
  function LineSize(line: string): nat {
    |line| + 1
  }

  function Bytes(lines: seq<string>): nat {
    if lines == [] then 0 else Bytes(lines[..|lines| - 1]) + LineSize(lines[|lines| - 1])
  }

  /** The text of a file: each line with its newline. */
  function FileText(lines: seq<string>): string {
    if lines == [] then "" else FileText(lines[..|lines| - 1]) + lines[|lines| - 1] + "\n"
  }

  /** The size kept for a file is the length of its text. */
  lemma {:induction false} SizeIsLength(lines: seq<string>)
    ensures Bytes(lines) == |FileText(lines)|
  {
    if lines != [] {
      SizeIsLength(lines[..|lines| - 1]);
    }
  }

  lemma {:induction false} BytesJoin(a: seq<string>, b: seq<string>)
    ensures Bytes(a + b) == Bytes(a) + Bytes(b)
  {
    if b == [] {
      assert a + b == a;
    } else {
      var n := |b| - 1;
      assert (a + b)[..|a + b| - 1] == a + b[..n];
      BytesJoin(a, b[..n]);
    }
  }

  // ---- one rotation ---------------------------------------------------------------------------

  /** A rotation puts the file of number k - 1 here. */
  predicate MovedTo(files: Files, maxFiles: int, k: nat) {
    k > 0 && (k < maxFiles || k == 1) && k - 1 in files
  }

  /** Every file below the oldest moves up by one and a new one is opened; with maxFiles at most 1 the log
      file lands on the one archive there is. */
  function Rotated(files: Files, maxFiles: int): Files {
    map k: nat | k in {0} + files.Keys + (set j | j in files :: j + 1) &&
                 (k == 0 || MovedTo(files, maxFiles, k) || (k >= maxFiles && k in files)) ::
      if k == 0 then [] else if MovedTo(files, maxFiles, k) then files[k - 1] else files[k]
  }

  lemma RotatedAt(files: Files, maxFiles: int, k: nat)
    ensures k in Rotated(files, maxFiles) <==>
            k == 0 || MovedTo(files, maxFiles, k) || (k >= maxFiles && k in files)
    ensures k == 0 ==> Rotated(files, maxFiles)[k] == []
    ensures MovedTo(files, maxFiles, k) ==> Rotated(files, maxFiles)[k] == files[k - 1]
    ensures k > 0 && k >= maxFiles && k in files && !MovedTo(files, maxFiles, k) ==>
              Rotated(files, maxFiles)[k] == files[k]
  {
    if MovedTo(files, maxFiles, k) {
      assert k == (k - 1) + 1 && k in (set j | j in files :: j + 1);
    }
  }

  /** A rename replaces a file that was already there. */
  predicate Clobbers(files: Files, maxFiles: int) {
    maxFiles <= 1 && 0 in files && 1 in files
  }

  // ---- lines, one after the other -------------------------------------------------------------

  datatype Config = Config(limit: nat, maxFiles: int)

  datatype Log = Log(files: Files, size: nat, clobbered: bool)

  const EMPTY := Log(map[0 := []], 0, false)

  function Written(c: Config, l: Log, line: string): Log {
    var there := if 0 in l.files then l.files[0] else [];
    var files, size := l.files[0 := there + [line]], l.size + LineSize(line);
    if size >= c.limit then Log(Rotated(files, c.maxFiles), 0, l.clobbered || Clobbers(files, c.maxFiles))
    else Log(files, size, l.clobbered)
  }

  function AllWritten(c: Config, l: Log, lines: seq<string>): Log {
    if lines == [] then l else Written(c, AllWritten(c, l, lines[..|lines| - 1]), lines[|lines| - 1])
  }

  /** The files from number k down to the log file: oldest lines first. */
  function History(files: Files, k: nat): seq<string> {
    (if k in files then files[k] else []) + if k == 0 then [] else History(files, k - 1)
  }

  predicate IsSuffix(a: seq<string>, b: seq<string>) {
    |a| <= |b| && b[|b| - |a|..] == a
  }

  lemma {:induction false} HistoryShifts(files: Files, maxFiles: int, k: nat)
    requires k + 1 < maxFiles
    ensures History(Rotated(files, maxFiles), k + 1) == History(files, k)
  {
    hide Rotated;
    var r := Rotated(files, maxFiles);
    RotatedAt(files, maxFiles, k + 1);
    if k == 0 {
      RotatedAt(files, maxFiles, 0);
      assert History(r, 0) == [];
    } else {
      HistoryShifts(files, maxFiles, k - 1);
    }
  }

  lemma {:induction false} HistoryAppends(files: Files, k: nat, line: string)
    requires 0 in files
    ensures History(files[0 := files[0] + [line]], k) == History(files, k) + [line]
    decreases k
  {
    if k > 0 {
      HistoryAppends(files, k - 1, line);
      hide History;
      LineGoesLast(if k in files then files[k] else [], History(files, k - 1), line);
      HistoryTop(files, k);
      HistoryTop(files[0 := files[0] + [line]], k);
    }
  }

  lemma LineGoesLast(a: seq<string>, b: seq<string>, line: string)
    ensures a + (b + [line]) == a + b + [line]
  {
  }

  lemma HistoryTop(files: Files, k: nat)
    requires k > 0
    ensures History(files, k) == (if k in files then files[k] else []) + History(files, k - 1)
  {
  }

  /** The numbers in use are 0, 1, ... without gaps and below maxFiles; every archive was full. */
  predicate Packed(c: Config, files: Files) {
    && 0 in files
    && (forall k | k in files :: k < c.maxFiles && (k > 0 ==> k - 1 in files && Bytes(files[k]) >= c.limit))
  }

  /** What is on disk is the end of what was logged, and all of it until the oldest place is taken. */
  predicate Faithful(c: Config, files: Files, logged: seq<string>)
    requires c.maxFiles >= 2
  {
    var h := History(files, c.maxFiles - 1);
    IsSuffix(h, logged) && (c.maxFiles - 1 !in files ==> h == logged)
  }

  predicate Inv(c: Config, l: Log, logged: seq<string>)
    requires c.maxFiles >= 2
  {
    Packed(c, l.files) && l.size == Bytes(l.files[0]) < c.limit && Faithful(c, l.files, logged) && !l.clobbered
  }

  lemma RotationKeepsPacked(c: Config, files: Files)
    requires c.maxFiles >= 2 && Packed(c, files) && Bytes(files[0]) >= c.limit
    ensures Packed(c, Rotated(files, c.maxFiles)) && Rotated(files, c.maxFiles)[0] == []
  {
    hide Rotated, Bytes;
    var r := Rotated(files, c.maxFiles);
    RotatedAt(files, c.maxFiles, 0);
    forall k | k in r
      ensures k < c.maxFiles && (k > 0 ==> k - 1 in r && Bytes(r[k]) >= c.limit)
    {
      RotatedAt(files, c.maxFiles, k);
      if k > 0 {
        RotatedAt(files, c.maxFiles, k - 1);
      }
    }
  }

  lemma SuffixOfSuffix(a: seq<string>, b: seq<string>, all: seq<string>)
    requires IsSuffix(a + b, all)
    ensures IsSuffix(b, all)
  {
    assert (a + b)[|a|..] == b;
    assert all[|all| - |b|..] == all[|all| - |a + b|..][|a|..];
  }

  lemma SuffixGrows(a: seq<string>, all: seq<string>, line: string)
    requires IsSuffix(a, all)
    ensures IsSuffix(a + [line], all + [line])
  {
    assert (all + [line])[|all| - |a|..] == all[|all| - |a|..] + [line];
  }

  /** A rotation takes exactly the archive in the oldest place off the front. */
  lemma RotationDropsOldest(files: Files, maxFiles: int)
    requires maxFiles >= 2
    ensures var n := maxFiles - 1;
            History(files, n) == (if n in files then files[n] else []) + History(Rotated(files, maxFiles), n)
  {
    hide Rotated;
    HistoryShifts(files, maxFiles, maxFiles - 2);
  }

  lemma NothingDropped(lines: seq<string>)
    ensures [] + lines == lines
  {
  }

  /** A rotation loses the oldest archive, and nothing if there is none in the oldest place. */
  lemma RotationKeepsFaith(c: Config, files: Files, logged: seq<string>)
    requires c.maxFiles >= 2 && Packed(c, files) && Faithful(c, files, logged)
    ensures Faithful(c, Rotated(files, c.maxFiles), logged)
    ensures var n := c.maxFiles - 1;
            History(files, n) == (if n in files then files[n] else []) + History(Rotated(files, c.maxFiles), n)
  {
    hide Rotated, Packed, IsSuffix, History;
    var n, r := c.maxFiles - 1, Rotated(files, c.maxFiles);
    RotationDropsOldest(files, c.maxFiles);
    RotatedAt(files, c.maxFiles, n);
    if n in files {
      SuffixOfSuffix(files[n], History(r, n), logged);
    } else {
      NothingDropped(History(r, n));
    }
    if n !in r {
      AbsentBelow(c, files, n);
    }
  }

  /** No gaps: above a missing number nothing is present. */
  lemma AbsentBelow(c: Config, files: Files, n: nat)
    requires Packed(c, files) && n > 0 && n - 1 !in files
    ensures n !in files
  {
  }

  lemma LinePacked(c: Config, files: Files, line: string)
    requires Packed(c, files)
    ensures Packed(c, files[0 := files[0] + [line]])
    ensures Bytes(files[0] + [line]) == Bytes(files[0]) + LineSize(line)
  {
    assert (files[0] + [line])[..|files[0]|] == files[0];
  }

  lemma WrittenKeepsInv(c: Config, l: Log, logged: seq<string>, line: string)
    requires c.maxFiles >= 2 && c.limit > 0 && Inv(c, l, logged)
    ensures Inv(c, Written(c, l, line), logged + [line])
  {
    hide Rotated, Packed, History, IsSuffix, Bytes, LineSize;
    LogFileThere(c, l.files);
    var files := l.files[0 := l.files[0] + [line]];
    HistoryAppends(l.files, c.maxFiles - 1, line);
    SuffixGrows(History(l.files, c.maxFiles - 1), logged, line);
    LinePacked(c, l.files, line);
    if l.size + LineSize(line) >= c.limit {
      RotationKeepsPacked(c, files);
      RotationKeepsFaith(c, files, logged + [line]);
      BytesNone();
    }
  }

  lemma LogFileThere(c: Config, files: Files)
    requires Packed(c, files)
    ensures 0 in files
  {
  }

  lemma BytesNone()
    ensures Bytes([]) == 0
  {
  }

  lemma {:induction false} LinesKeepInv(c: Config, lines: seq<string>)
    requires c.maxFiles >= 2 && c.limit > 0
    ensures Inv(c, AllWritten(c, EMPTY, lines), lines)
  {
    hide Inv, Written;
    if lines == [] {
      EmptyInv(c);
    } else {
      var n := |lines| - 1;
      LinesKeepInv(c, lines[..n]);
      WrittenKeepsInv(c, AllWritten(c, EMPTY, lines[..n]), lines[..n], lines[n]);
      assert lines[..n] + [lines[n]] == lines;
    }
  }

  lemma EmptyInv(c: Config)
    requires c.maxFiles >= 2 && c.limit > 0
    ensures Inv(c, EMPTY, [])
  {
    NothingThere(c.maxFiles - 1);
  }

  lemma {:induction false} NothingThere(k: nat)
    ensures History(EMPTY.files, k) == []
  {
    if k > 0 {
      NothingThere(k - 1);
    }
  }

  // ---- what a reader of the directory finds ---------------------------------------------------

  /** From an empty directory, after any lines: archives from the oldest, then the log file, are the last
      lines logged, none missing or out of order between them; the log file is below the limit. */
  lemma DirectoryIsSuffix(c: Config, lines: seq<string>)
    requires c.maxFiles >= 2 && c.limit > 0
    ensures var l := AllWritten(c, EMPTY, lines);
            && IsSuffix(History(l.files, c.maxFiles - 1), lines)
            && 0 in l.files && Bytes(l.files[0]) == l.size < c.limit
            && (forall k | k in l.files :: k < c.maxFiles)
  {
    LinesKeepInv(c, lines);
  }

  lemma FewFiles(c: Config, lines: seq<string>)
    requires c.maxFiles >= 2 && c.limit > 0
    ensures |AllWritten(c, EMPTY, lines).files| <= c.maxFiles
  {
    LinesKeepInv(c, lines);
    var l := AllWritten(c, EMPTY, lines);
    CountBelow(l.files.Keys, c.maxFiles);
  }

  lemma {:induction false} CountBelow(s: set<nat>, n: nat)
    requires forall k | k in s :: k < n
    ensures |s| <= n
  {
    if n == 0 {
      assert s == {};
    } else {
      CountBelow(s - {n - 1}, n - 1);
    }
  }

  lemma {:induction false} HistoryBytes(c: Config, files: Files, k: nat)
    requires Packed(c, files) && k in files
    ensures Bytes(History(files, k)) >= k * c.limit
  {
    if k > 0 {
      HistoryBytes(c, files, k - 1);
      BytesJoin(files[k], History(files, k - 1));
      assert k * c.limit == (k - 1) * c.limit + c.limit;
    }
  }

  /** Lines are dropped only for room: all of them are there, or the archives alone fill their share. */
  lemma RetainsItsShare(c: Config, lines: seq<string>)
    requires c.maxFiles >= 2 && c.limit > 0
    ensures var h := History(AllWritten(c, EMPTY, lines).files, c.maxFiles - 1);
            h == lines || Bytes(h) >= (c.maxFiles - 1) * c.limit
  {
    LinesKeepInv(c, lines);
    var l := AllWritten(c, EMPTY, lines);
    if c.maxFiles - 1 in l.files {
      HistoryBytes(c, l.files, c.maxFiles - 1);
    }
  }

  ghost predicate NeverClobbers(c: Config) {
    forall lines: seq<string> :: !AllWritten(c, EMPTY, lines).clobbered
  }

  /** No rename ever replaces an archive exactly when at least two files are allowed. */
  lemma NeverClobbersIff(c: Config)
    requires c.limit > 0
    ensures NeverClobbers(c) <==> c.maxFiles >= 2
  {
    if c.maxFiles >= 2 {
      forall lines: seq<string>
        ensures !AllWritten(c, EMPTY, lines).clobbered
      {
        LinesKeepInv(c, lines);
      }
    } else {
      var line := seq(c.limit, _ => 'x');
      SecondLineClobbers(c, line);
      assert AllWritten(c, EMPTY, [line] + [line]).clobbered;
    }
  }

  lemma OneMoreLine(c: Config, l: Log, lines: seq<string>, line: string)
    ensures AllWritten(c, l, lines + [line]) == Written(c, AllWritten(c, l, lines), line)
    ensures AllWritten(c, l, []) == l
  {
    assert (lines + [line])[..|lines|] == lines;
  }

  lemma SecondLineClobbers(c: Config, line: string)
    requires c.maxFiles <= 1 && |line| == c.limit
    ensures AllWritten(c, EMPTY, [line] + [line]).clobbered
  {
    hide Rotated, AllWritten;
    var none: seq<string> := [];
    OneMoreLine(c, EMPTY, none, line);
    OneMoreLine(c, EMPTY, [line], line);
    assert none + [line] == [line];
    var files := EMPTY.files[0 := none + [line]];
    var first := Log(Rotated(files, c.maxFiles), 0, false);
    assert Written(c, EMPTY, line) == first;
    RotatedAt(files, c.maxFiles, 0);
    RotatedAt(files, c.maxFiles, 1);
    assert Written(c, first, line).clobbered;
  }

  // ---- a single archive -----------------------------------------------------------------------

  /** What holds of the directory when at most one file is allowed: the log file and one archive. */
  predicate OneArchive(c: Config, l: Log, logged: seq<string>) {
    && 0 in l.files && (forall k | k in l.files :: k <= 1)
    && l.size == Bytes(l.files[0]) < c.limit
    && IsSuffix((if 1 in l.files then l.files[1] else []) + l.files[0], logged)
  }

  lemma WrittenKeepsOne(c: Config, l: Log, logged: seq<string>, line: string)
    requires c.maxFiles <= 1 && c.limit > 0 && OneArchive(c, l, logged)
    ensures OneArchive(c, Written(c, l, line), logged + [line])
    ensures Written(c, l, line).clobbered <==>
              l.clobbered || (Bytes(l.files[0] + [line]) >= c.limit && 1 in l.files)
  {
    hide Rotated, IsSuffix, Bytes;
    var now := l.files[0] + [line];
    var files := l.files[0 := now];
    var before := if 1 in l.files then l.files[1] else [];
    OneLineMore(l.files[0], line);
    SuffixGrows(before + l.files[0], logged, line);
    assert before + l.files[0] + [line] == before + now;
    if l.size + LineSize(line) >= c.limit {
      RotatedAt(files, c.maxFiles, 0);
      RotatedAt(files, c.maxFiles, 1);
      forall k | k in Rotated(files, c.maxFiles) ensures k <= 1 {
        RotatedAt(files, c.maxFiles, k);
      }
      SuffixOfSuffix(before, now, logged + [line]);
      assert now + [] == now;
      BytesNone();
    }
  }

  lemma OneLineMore(lines: seq<string>, line: string)
    ensures Bytes(lines + [line]) == Bytes(lines) + LineSize(line)
  {
    assert (lines + [line])[..|lines|] == lines;
  }

  /** With at most one file allowed the log file and one archive remain, and they are the end of what was
      logged: a rotation keeps the lines since the one before it. */
  lemma {:induction false} OneArchiveIsSuffix(c: Config, lines: seq<string>)
    requires c.maxFiles <= 1 && c.limit > 0
    ensures OneArchive(c, AllWritten(c, EMPTY, lines), lines)
  {
    hide OneArchive, Written;
    if lines == [] {
      NothingArchived(c);
    } else {
      var n := |lines| - 1;
      OneArchiveIsSuffix(c, lines[..n]);
      WrittenKeepsOne(c, AllWritten(c, EMPTY, lines[..n]), lines[..n], lines[n]);
      assert lines[..n] + [lines[n]] == lines;
    }
  }

  lemma NothingArchived(c: Config)
    requires c.limit > 0
    ensures OneArchive(c, EMPTY, [])
  {
  }

  // ---- the loop of a rotation -----------------------------------------------------------------

  /** The files of numbers above `i` have been moved up by one, the oldest removed. */
  ghost predicate Shifted(was: Files, files: Files, maxFiles: int, i: int) {
    && (forall k: nat | k <= i || k == 0 || k >= maxFiles ::
          (k in files <==> k in was) && (k in files ==> files[k] == was[k]))
    && (forall k: nat | i < k < maxFiles && k > 0 ::
          (k in files <==> k > i + 1 && k - 1 in was) && (k in files ==> files[k] == was[k - 1]))
  }

  lemma ShiftStarts(files: Files, maxFiles: int)
    ensures Shifted(files, files, maxFiles, maxFiles - 1)
  {
  }

  function MovedUp(files: Files, maxFiles: int, i: nat): Files {
    if i !in files then files
    else if i == maxFiles - 1 then files - {i}
    else (files - {i})[i + 1 := files[i]]
  }

  /** The name a file is moved to is free. */
  lemma ShiftGoesOn(was: Files, files: Files, maxFiles: int, i: nat)
    requires 0 < i < maxFiles && Shifted(was, files, maxFiles, i)
    ensures Shifted(was, MovedUp(files, maxFiles, i), maxFiles, i - 1)
    ensures i < maxFiles - 1 ==> i + 1 !in files
  {
  }

  lemma ShiftEnds(was: Files, files: Files, maxFiles: int, i: int)
    requires i <= 0 && (i == maxFiles - 1 || i == 0) && Shifted(was, files, maxFiles, i)
    ensures 0 in files <==> 0 in was
    ensures 1 in files <==> maxFiles <= 1 && 1 in was
    ensures (if 0 in files then (files - {0})[1 := files[0]] else files)[0 := []] == Rotated(was, maxFiles)
  {
    hide Rotated;
    var r := (if 0 in files then (files - {0})[1 := files[0]] else files)[0 := []];
    forall k: nat
      ensures k in r <==> k in Rotated(was, maxFiles)
      ensures k in r ==> r[k] == Rotated(was, maxFiles)[k]
    {
      RotatedAt(was, maxFiles, k);
    }
  }

  // ---- the logger -----------------------------------------------------------------------------

  class Logger {
    const name: string
    var level: Level
    var files: Files
    var isOpen: bool
    var currentFileSize: nat
    const maxFileSize: nat
    const maxFiles: int
    ghost var clobbered: bool

    ghost function State(): Log
      reads this
    {
      Log(files, currentFileSize, clobbered)
    }

    ghost function Settings(): Config {
      Config(maxFileSize, maxFiles)
    }

    constructor (name: string, level: Level, files: Files, maxFileSize: nat, maxFiles: int)
      ensures this.name == name && this.level == level && this.files == files && !isOpen && !clobbered
      ensures Settings() == Config(maxFileSize, maxFiles)
    {
      this.name, this.level, this.files, this.maxFileSize, this.maxFiles := name, level, files, maxFileSize, maxFiles;
      isOpen, currentFileSize, clobbered := false, 0, false;
    }

    /** Opens the log file for appending, and its size counts what is already there; the empty name ends
        the output to files. */
    method SetOutputFile(filename: string)
      requires filename == "" || filename == name
      modifies this`files, this`isOpen, this`currentFileSize
      ensures isOpen <==> filename != ""
      ensures files == if filename == "" || 0 in old(files) then old(files) else old(files)[0 := []]
      ensures if isOpen then 0 in files && currentFileSize == Bytes(files[0]) else currentFileSize == 0
    {
      isOpen := false;
      currentFileSize := 0;
      if filename != "" {
        if 0 !in files {
          files := files[0 := []];
        }
        isOpen := true;
        currentFileSize := Size(files[0]);
      }
    }

    static method Size(lines: seq<string>) returns (n: nat)
      ensures n == Bytes(lines)
    {
      n := 0;
      for i := 0 to |lines|
        invariant n == Bytes(lines[..i])
      {
        assert lines[..i + 1][..i] == lines[..i];
        n := n + LineSize(lines[i]);
      }
      assert lines[..|lines|] == lines;
    }

    method Remove(k: nat)
      requires k in files
      modifies this`files
      ensures files == old(files) - {k}
    {
      files := files - {k};
    }

    method Rename(a: nat, b: nat)
      requires a in files && a != b
      modifies this`files, this`clobbered
      ensures files == (old(files) - {a})[b := old(files)[a]]
      ensures clobbered == (old(clobbered) || b in old(files))
    {
      clobbered := clobbered || b in files;
      files := (files - {a})[b := files[a]];
    }

    method RotateLogFile()
      modifies this`files, this`currentFileSize, this`clobbered
      ensures files == Rotated(old(files), maxFiles) && currentFileSize == 0
      ensures clobbered == (old(clobbered) || Clobbers(old(files), maxFiles))
    {
      hide Rotated, Shifted;
      ghost var was := files;
      var i := maxFiles - 1;
      ShiftStarts(files, maxFiles);
      while i > 0
        invariant i == maxFiles - 1 || 0 <= i < maxFiles
        invariant Shifted(was, files, maxFiles, i) && clobbered == old(clobbered)
      {
        ShiftGoesOn(was, files, maxFiles, i);
        if i in files {
          if i == maxFiles - 1 {
            Remove(i);
          } else {
            Rename(i, i + 1);
          }
        }
        i := i - 1;
      }
      ShiftEnds(was, files, maxFiles, i);
      if 0 in files {
        Rename(0, 1);
      }
      files := files[0 := []];
      currentFileSize := 0;
    }

    /** log(): a line below the level, or with no file open, leaves the file alone. */
    method WriteLog(level: Level, timestamp: string, message: string) returns (line: string)
      requires isOpen ==> 0 in files
      modifies this`files, this`currentFileSize, this`clobbered
      ensures line == "[" + timestamp + "] [" + LevelToString(level) + "] " + message
      ensures State() == if Severity(level) >= Severity(this.level) && isOpen
                         then Written(Settings(), old(State()), line) else old(State())
      ensures isOpen ==> 0 in files
    {
      line := "[" + timestamp + "] " + "[" + LevelToString(level) + "] " + message;
      assert line == "[" + timestamp + "] [" + LevelToString(level) + "] " + message;
      if Severity(level) < Severity(this.level) || !isOpen {
        return;
      }
      files := files[0 := files[0] + [line]];
      currentFileSize := currentFileSize + LineSize(line);
      if currentFileSize >= maxFileSize {
        RotateLogFile();
        RotatedAt(old(files)[0 := old(files)[0] + [line]], maxFiles, 0);
      }
    }
  }
}
