/** `seek_directories`: the depth-first walk that scans every input workbook
    under a directory. The order of the walk is given as a sequence of events
    (`Visits`), what handling those events does to the output as a fold
    (`Process`), and the imperative walk is proved to do exactly that. */
module Walker {
  import opened Values
  import opened Styles
  import opened Sheets
  import opened Streams
  import opened Workbooks
  import opened Scanner
  import opened Paths
  import opened Ordering
  import opened Directories

  /** How the walk fails: a scan fails, or a path that is not a regular file
      cannot be listed as a directory. Either ends the walk. */
  datatype WalkError = ScanFailed(error: ScanError) | CannotList(path: string)

  /** One step of the walk, in the order the walk takes them. */
  datatype Event =
    | Listed(fullPath: string, relative: string, name: string, content: Option<Sheet>)  // a regular file
    | Unlistable(path: string)                                                        // a directory listing that fails

  /** The console line for a scanned file: `'%s %s %d' % (dir_relative, file, lines)`. */
  function Summary(relative: string, name: string, lines: nat): string {
    relative + " " + name + " " + NatToDecimal(lines)
  }

  /** What the walk has produced: the output sheet, the writer's cursor, the
      trace log and the console. */
  datatype Out = Out(cells: Grid, row: int, log: seq<string>, console: seq<string>)

  /** The produced state as the objects hold it; without a trace file there
      is no log. */
  ghost function Snapshot(writer: Writer, fp: TextStream?, console: TextStream): Out
    reads writer, fp, console
  {
    Out(writer.cells, writer.row, if fp != null then fp.lines else [], console.lines)
  }

  /** Handling one event: a listed file's full path goes to the trace log;
      an input workbook is then scanned at the writer's cursor and summed up on
      the console. */
  function Step(st: Out, tracing: bool, ev: Event): Result<Out, WalkError> {
    match ev
    case Unlistable(path) => Failure(CannotList(path))
    case Listed(full, rel, name, content) =>
      var log := if tracing then st.log + [full] else st.log;
      if !IsInputName(name) then Success(st.(log := log))
      else if content.None? then Failure(ScanFailed(CannotOpen(full)))
      else if !Fits(content.value) then Failure(ScanFailed(FormatIndexOutOfRange(|CELL_FORMATS|)))
      else
        var s := content.value;
        Success(Out(CopyRect(st.cells, s, st.row), st.row + RowCount(s),
                    if tracing then log + ScanLog(s, RowCount(s)) else log,
                    st.console + [Summary(rel, name, RowCount(s))]))
  }

  /** Handling the events in order, stopping at the first failure. */
  function Process(st: Out, tracing: bool, evs: seq<Event>): Result<Out, WalkError> {
    if evs == [] then Success(st)
    else
      match Process(st, tracing, evs[..|evs| - 1])
      case Failure(e) => Failure(e)
      case Success(mid) => Step(mid, tracing, evs[|evs| - 1])
  }

  /** The event of a listed regular file. */
  function FileEvent(root: string, rel: string, f: Entry): Event
    requires f.File?
  {
    Listed(PathJoin(root, f.name), rel, f.name, f.content)
  }

  /** The events of a level's files, in the given order. */
  function FileEvents(root: string, rel: string, files: seq<Entry>): (evs: seq<Event>)
    requires forall f :: f in files ==> f.File?
    ensures |evs| == |files|
    ensures forall i :: 0 <= i < |files| ==> evs[i] == FileEvent(root, rel, files[i])
  {
    if files == [] then []
    else FileEvents(root, rel, files[..|files| - 1]) + [FileEvent(root, rel, files[|files| - 1])]
  }

  /** The walk of the directory `dir` at path `root` (relative path `rel`):
      all its regular files in lower-cased name order, then each other entry,
      in the same order, walked in turn at the extended paths. An entry that
      is not a directory cannot be listed. */
  function Visits(root: string, rel: string, dir: Entry): seq<Event>
    decreases dir, 1, 0
  {
    match dir
    case Dir(_, es) =>
      var files := SortByName(FilesOf(es));
      var dirs := SortByName(DirsOf(es));
      forall f | f in files ensures f.File? {
        SortByNameMembers(FilesOf(es), f);
        PartitionMembers(es, f);
      }
      forall d | d in dirs ensures d in es {
        SortByNameMembers(DirsOf(es), d);
        PartitionMembers(es, d);
      }
      FileEvents(root, rel, files) + VisitDirs(root, rel, dirs, dir)
    case _ => [Unlistable(root)]
  }

  /** The walks of the subdirectories `dirs` of `parent`, one after another. */
  function VisitDirs(root: string, rel: string, dirs: seq<Entry>, parent: Entry): seq<Event>
    requires parent.Dir? && forall d :: d in dirs ==> d in parent.entries
    decreases parent, 0, |dirs|
  {
    if dirs == [] then []
    else
      var d := dirs[|dirs| - 1];
      assert d in parent.entries;
      VisitDirs(root, rel, dirs[..|dirs| - 1], parent) + Visits(PathJoin(root, d.name), PathJoin(rel, d.name), d)
  }

  /** Handling two runs of events is handling the first, then the second
      from where the first left off; a failure in the first is final. */
  lemma {:induction false} ProcessConcat(st: Out, tracing: bool, a: seq<Event>, b: seq<Event>)
    ensures Process(st, tracing, a + b) ==
      match Process(st, tracing, a)
      case Failure(e) => Failure(e)
      case Success(mid) => Process(mid, tracing, b)
  {
    if b != [] {
      var b' := b[..|b| - 1];
      assert (a + b)[..|a + b| - 1] == a + b';
      assert (a + b)[|a + b| - 1] == b[|b| - 1];
      ProcessConcat(st, tracing, a, b');
    } else {
      assert a + b == a;
    }
  }

  /** Handling one more event of a run whose prefix succeeded. */
  lemma ProcessNext(st: Out, tracing: bool, evs: seq<Event>, n: nat, mid: Out)
    requires n < |evs| && Process(st, tracing, evs[..n]) == Success(mid)
    ensures Process(st, tracing, evs[..n + 1]) == Step(mid, tracing, evs[n])
  {
    assert evs[..n + 1][..n] == evs[..n];
  }

  /** Once a prefix of the events fails, the whole run fails the same way. */
  lemma ProcessPrefixFailure(st: Out, tracing: bool, a: seq<Event>, b: seq<Event>)
    requires a <= b && Process(st, tracing, a).Failure?
    ensures Process(st, tracing, b) == Process(st, tracing, a)
  {
    assert b == a + b[|a|..];
    ProcessConcat(st, tracing, a, b[|a|..]);
  }

  lemma VisitDirsPrefix(root: string, rel: string, dirs: seq<Entry>, parent: Entry, k: nat)
    requires parent.Dir? && forall d :: d in dirs ==> d in parent.entries
    requires k <= |dirs|
    ensures VisitDirs(root, rel, dirs[..k], parent) <= VisitDirs(root, rel, dirs, parent)
    decreases |dirs|
  {
    if k < |dirs| {
      VisitDirsPrefix(root, rel, dirs[..|dirs| - 1], parent, k);
      assert dirs[..|dirs| - 1][..k] == dirs[..k];
    } else {
      assert dirs[..k] == dirs;
    }
  }

  /** The sheets of the events' scanned files, in order. */
  function Scanned(evs: seq<Event>): seq<Sheet> {
    if evs == [] then []
    else
      var ev := evs[|evs| - 1];
      Scanned(evs[..|evs| - 1]) +
        (if ev.Listed? && IsInputName(ev.name) && ev.content.Some? then [ev.content.value] else [])
  }

  /** The number of rows of the sheets together. */
  function TotalRows(sheets: seq<Sheet>): nat {
    if sheets == [] then 0 else TotalRows(sheets[..|sheets| - 1]) + RowCount(sheets[|sheets| - 1])
  }

  /** After a successful run, the writer's cursor has moved by exactly the rows
      of the scanned files (so their rows sit one after another with no gap),
      the console has one summary line per scanned file after the earlier
      ones, and the trace log has only grown, or stayed as it was without a
      trace file. */
  lemma {:induction false} ProcessTotals(st: Out, tracing: bool, evs: seq<Event>)
    requires Process(st, tracing, evs).Success?
    ensures var out := Process(st, tracing, evs).value;
      && out.row == st.row + TotalRows(Scanned(evs))
      && |out.console| == |st.console| + |Scanned(evs)|
      && st.console <= out.console
      && st.log <= out.log
      && (!tracing ==> out.log == st.log)
  {
    if evs != [] {
      var init := evs[..|evs| - 1];
      ProcessTotals(st, tracing, init);
      var sheets := Scanned(init);
      var ev := evs[|evs| - 1];
      if ev.Listed? && IsInputName(ev.name) && ev.content.Some? {
        assert Scanned(evs) == sheets + [ev.content.value];
        assert (sheets + [ev.content.value])[..|sheets|] == sheets;
      } else {
        assert Scanned(evs) == sheets;
      }
    }
  }

  /** With a trace file, a listed file's full path is logged before anything
      else it causes, and its row lines follow exactly when it is scanned. */
  lemma StepTracesPathFirst(st: Out, full: string, rel: string, name: string, content: Option<Sheet>)
    requires Step(st, true, Listed(full, rel, name, content)).Success?
    ensures var out := Step(st, true, Listed(full, rel, name, content)).value;
      && |out.log| > |st.log|
      && out.log[..|st.log|] == st.log
      && out.log[|st.log|] == full
      && (IsInputName(name) ==> out.log[|st.log| + 1..] == ScanLog(content.value, RowCount(content.value)))
      && (!IsInputName(name) ==> |out.log| == |st.log| + 1)
  {
    var out := Step(st, true, Listed(full, rel, name, content)).value;
    if IsInputName(name) {
      assert out.log == st.log + [full] + ScanLog(content.value, RowCount(content.value));
    }
  }

  /** A listed file is opened and scanned exactly when its name passes the
      input filter. A file that does not pass is never opened: whatever it
      holds (a lock file that is no workbook, a sheet too wide for the format
      table), only its path is logged and the walk goes on with the output,
      the cursor and the console as they were. A file that passes fails the
      walk when it cannot be opened or does not fit the table, and otherwise
      moves the cursor by its rows and adds one console line. */
  lemma StepScansExactlyInputs(st: Out, tracing: bool, full: string, rel: string, name: string, content: Option<Sheet>)
    ensures !IsInputName(name) ==>
      Step(st, tracing, Listed(full, rel, name, content)) ==
        Success(st.(log := if tracing then st.log + [full] else st.log))
    ensures IsInputName(name) && content.None? ==>
      Step(st, tracing, Listed(full, rel, name, content)) == Failure(ScanFailed(CannotOpen(full)))
    ensures IsInputName(name) && content.Some? && !Fits(content.value) ==>
      Step(st, tracing, Listed(full, rel, name, content)) == Failure(ScanFailed(FormatIndexOutOfRange(|CELL_FORMATS|)))
    ensures content.Some? && Fits(content.value) ==>
      && Step(st, tracing, Listed(full, rel, name, content)).Success?
      && var out := Step(st, tracing, Listed(full, rel, name, content)).value;
      && (|out.console| == |st.console| + 1 <==> IsInputName(name))
      && st.console <= out.console
      && (IsInputName(name) ==> out.row == st.row + RowCount(content.value))
  {
  }

  /** At each level the walk first handles every regular file of the listing,
      each once, in lower-cased name order, with its path joined to the
      level's path and the level's relative path; only then come the
      subdirectories' events. */
  lemma VisitsFilesFirst(root: string, rel: string, name: string, es: seq<Entry>)
    ensures var evs := Visits(root, rel, Dir(name, es));
      var files := SortByName(FilesOf(es));
      && |files| <= |evs|
      && (forall e :: e in files <==> e in es && e.File?)
      && multiset(files) == multiset(FilesOf(es))
      && (forall i :: 0 <= i < |files| ==>
            evs[i] == Listed(PathJoin(root, files[i].name), rel, files[i].name, files[i].content))
      && (forall i, j :: 0 <= i < j < |files| ==> LowerLe(evs[i].name, evs[j].name))
  {
    var files := SortByName(FilesOf(es));
    forall e ensures e in files <==> e in es && e.File? {
      SortByNameMembers(FilesOf(es), e);
      PartitionMembers(es, e);
    }
    SortByNameSorted(FilesOf(es));
    SortByNamePermutation(FilesOf(es));
  }

  /** At each level, once the files are handled, the walk goes on with every
      entry that is not a regular file, each once, in lower-cased name order,
      each walked in turn (`VisitDirs`) at the extended paths. */
  lemma VisitsDirsAfter(root: string, rel: string, name: string, es: seq<Entry>)
    ensures var dirs := SortByName(DirsOf(es));
      && (forall d :: d in dirs <==> d in es && !d.File?)
      && SortedByName(dirs)
      && multiset(dirs) == multiset(DirsOf(es))
      && |SortByName(FilesOf(es))| <= |Visits(root, rel, Dir(name, es))|
      && Visits(root, rel, Dir(name, es))[|SortByName(FilesOf(es))|..] == VisitDirs(root, rel, dirs, Dir(name, es))
  {
    var files := SortByName(FilesOf(es));
    var dirs := SortByName(DirsOf(es));
    forall d ensures d in dirs <==> d in es && !d.File? {
      SortByNameMembers(DirsOf(es), d);
      PartitionMembers(es, d);
    }
    forall f | f in files ensures f.File? {
      SortByNameMembers(FilesOf(es), f);
      PartitionMembers(es, f);
    }
    SortByNameSorted(DirsOf(es));
    SortByNamePermutation(DirsOf(es));
    var fileEvents := FileEvents(root, rel, files);
    assert Visits(root, rel, Dir(name, es)) == fileEvents + VisitDirs(root, rel, dirs, Dir(name, es));
  }

  /** In a directory holding `b.xlsx`, a subdirectory `Z` with `c.xlsx` in
      it, and `A.xlsx`, the walk handles `A.xlsx`, `b.xlsx`, then `Z`'s
      `c.xlsx` at the extended paths: files before directories, names compared
      in lower case. */
  lemma WalkOrderExample(root: string, rel: string)
    ensures Visits(root, rel, Dir("in", [File("b.xlsx", None), Dir("Z", [File("c.xlsx", None)]), File("A.xlsx", None)])) ==
      [Listed(PathJoin(root, "A.xlsx"), rel, "A.xlsx", None),
       Listed(PathJoin(root, "b.xlsx"), rel, "b.xlsx", None),
       Listed(PathJoin(PathJoin(root, "Z"), "c.xlsx"), PathJoin(rel, "Z"), "c.xlsx", None)]
  {
    var a, b, c := File("A.xlsx", None), File("b.xlsx", None), File("c.xlsx", None);
    ExampleEvents(root, rel, a, b, Dir("Z", [c]));
  }

  /** The events of the example, with the entries held abstract. */
  lemma ExampleEvents(root: string, rel: string, a: Entry, b: Entry, z: Entry)
    requires a == File("A.xlsx", None) && b == File("b.xlsx", None)
    requires z.Dir? && z.name == "Z" && |z.entries| == 1 && z.entries[0].File?
    ensures Visits(root, rel, Dir("in", [b, z, a])) ==
      [FileEvent(root, rel, a), FileEvent(root, rel, b), FileEvent(PathJoin(root, "Z"), PathJoin(rel, "Z"), z.entries[0])]
  {
    TopLevelExample(root, rel, a, b, z);
    TwoFileEvents(root, rel, a, b);
    SingleFileDir(PathJoin(root, "Z"), PathJoin(rel, "Z"), z);
    ConcatExample(FileEvents(root, rel, [a, b]), Visits(PathJoin(root, "Z"), PathJoin(rel, "Z"), z),
                  FileEvent(root, rel, a), FileEvent(root, rel, b), FileEvent(PathJoin(root, "Z"), PathJoin(rel, "Z"), z.entries[0]));
  }

  // The example lemmas below are small steps of `WalkOrderExample`, kept
  // apart so that each proof stays small; they model nothing of their own.

  lemma TwoFileEvents(root: string, rel: string, a: Entry, b: Entry)
    requires a.File? && b.File?
    ensures FileEvents(root, rel, [a, b]) == [FileEvent(root, rel, a), FileEvent(root, rel, b)]
  {
    assert [a, b][..1] == [a] && [a][..0] == [];
  }

  lemma ConcatExample(x: seq<Event>, y: seq<Event>, e1: Event, e2: Event, e3: Event)
    requires x == [e1, e2] && y == [e3]
    ensures x + y == [e1, e2, e3]
  {
  }

  /** The top level of the example: files `A.xlsx`, `b.xlsx` in that order,
      then the walk of `Z`. */
  lemma TopLevelExample(root: string, rel: string, a: Entry, b: Entry, z: Entry)
    requires a == File("A.xlsx", None) && b == File("b.xlsx", None) && z.Dir? && z.name == "Z"
    ensures Visits(root, rel, Dir("in", [b, z, a])) ==
      FileEvents(root, rel, [a, b]) + Visits(PathJoin(root, "Z"), PathJoin(rel, "Z"), z)
  {
    var top := Dir("in", [b, z, a]);
    PartitionExample(a, b, z);
    SortPairExample(a, b);
    SortSingle(z);
    assert VisitDirs(root, rel, [z], top) == Visits(PathJoin(root, "Z"), PathJoin(rel, "Z"), z) by {
      assert [z][..0] == [];
    }
  }

  /** A directory holding one regular file yields that file's event alone. */
  lemma SingleFileDir(root: string, rel: string, d: Entry)
    requires d.Dir? && |d.entries| == 1 && d.entries[0].File?
    ensures Visits(root, rel, d) == [FileEvent(root, rel, d.entries[0])]
  {
    var c := d.entries[0];
    assert d.entries == [c];
    PartitionSingle(c);
    SortSingle(c);
    assert Visits(root, rel, d) == FileEvents(root, rel, [c]) + VisitDirs(root, rel, [], d);
  }

  lemma PartitionExample(a: Entry, b: Entry, z: Entry)
    requires a.File? && b.File? && z.Dir?
    ensures FilesOf([b, z, a]) == [b, a] && DirsOf([b, z, a]) == [z]
  {
    assert [b, z, a][..2] == [b, z] && [b, z][..1] == [b] && [b][..0] == [];
    assert FilesOf([]) == [] && DirsOf([]) == [];
    assert FilesOf([b]) == [b] && DirsOf([b]) == [];
    assert FilesOf([b, z]) == [b] && DirsOf([b, z]) == [z];
  }

  lemma PartitionSingle(c: Entry)
    requires c.File?
    ensures FilesOf([c]) == [c] && DirsOf([c]) == []
  {
    assert [c][..0] == [];
  }

  lemma SortSingle(e: Entry)
    ensures SortByName([e]) == [e]
  {
    assert [e][..0] == [];
  }

  lemma SortPairExample(a: Entry, b: Entry)
    requires a.name == "A.xlsx" && b.name == "b.xlsx"
    ensures SortByName([b, a]) == [a, b]
  {
    assert !LowerLe(b.name, a.name) by {
      assert Lower(b.name)[0] == 'b' && Lower(a.name)[0] == 'a';
    }
    assert [b, a][..1] == [b];
    SortSingle(b);
  }

  /** The first loop of `seek_directories`: every listed entry that is a
      regular file is appended to `files`, every other one to `dirs`. */
  method Partition(listing: seq<Entry>) returns (files: seq<Entry>, dirs: seq<Entry>)
    ensures files == FilesOf(listing) && dirs == DirsOf(listing)
  {
    dirs, files := [], [];
    var i := 0;
    while i < |listing|
      invariant 0 <= i <= |listing|
      invariant files == FilesOf(listing[..i]) && dirs == DirsOf(listing[..i])
    {
      var path := listing[i];
      if IsFile(path) {
        files := files + [path];
      } else {
        dirs := dirs + [path];
      }
      assert listing[..i + 1][..i] == listing[..i];
      i := i + 1;
    }
    assert listing[..i] == listing;
  }

  /** One pass of the file loop of `seek_directories`: the file's full path
      goes to the trace log; an input workbook is scanned and summed up on
      the console. */
  method HandleFile(writer: Writer, dirRoot: string, dirRelative: string, file: Entry,
                    fp: TextStream?, console: TextStream) returns (r: Result<(), WalkError>)
    requires file.File? && fp != console
    modifies writer, fp, console
    ensures var want := Step(old(Snapshot(writer, fp, console)), fp != null, FileEvent(dirRoot, dirRelative, file));
      && (r.Success? <==> want.Success?)
      && (r.Success? ==> Snapshot(writer, fp, console) == want.value)
      && (r.Failure? ==> r.error == want.error)
  {
    ghost var st := Snapshot(writer, fp, console);
    var fullPathFile := PathJoin(dirRoot, file.name);
    if fp != null {
      fp.WriteLine(fullPathFile);
    }
    ghost var logged := if fp != null then st.log + [fullPathFile] else st.log;
    assert Snapshot(writer, fp, console) == st.(log := logged);
    var (base, ext) := SplitExt(file.name);
    if ext == EXTEND && !(base != [] && base[0] == TEMP_MARKER) {
      var lines := ScanExcelFile(writer, fullPathFile, file.content, fp);
      if lines.Failure? {
        return Failure(ScanFailed(lines.error));
      }
      ghost var s := file.content.value;
      console.WriteLine(Summary(dirRelative, file.name, lines.value));
      assert Snapshot(writer, fp, console) ==
        Out(CopyRect(st.cells, s, st.row), st.row + RowCount(s),
            if fp != null then logged + ScanLog(s, RowCount(s)) else logged,
            st.console + [Summary(dirRelative, file.name, RowCount(s))]);
    }
    return Success(());
  }

  /** `HandleFile` on the `j`-th file of a level, stated against the level's
      events: once the files before it are handled, handling it as well is
      handling the first `j + 1` events, and a failure is the failure of the
      whole level. */
  method HandleFileAt(writer: Writer, dirRoot: string, dirRelative: string, files: seq<Entry>, j: nat,
                      ghost st0: Out, fp: TextStream?, console: TextStream) returns (r: Result<(), WalkError>)
    requires j < |files| && (forall f :: f in files ==> f.File?) && fp != console
    requires Process(st0, fp != null, FileEvents(dirRoot, dirRelative, files)[..j]) == Success(Snapshot(writer, fp, console))
    modifies writer, fp, console
    ensures r.Success? ==>
      Process(st0, fp != null, FileEvents(dirRoot, dirRelative, files)[..j + 1]) == Success(Snapshot(writer, fp, console))
    ensures r.Failure? ==> Process(st0, fp != null, FileEvents(dirRoot, dirRelative, files)) == Failure(r.error)
  {
    ghost var evs := FileEvents(dirRoot, dirRelative, files);
    ProcessNext(st0, fp != null, evs, j, Snapshot(writer, fp, console));
    r := HandleFile(writer, dirRoot, dirRelative, files[j], fp, console);
    if r.Failure? {
      ProcessPrefixFailure(st0, fp != null, evs[..j + 1], evs);
    }
  }

  /** The second loop of `seek_directories`: each file of the level, in the
      given order, handled as `HandleFile` does until one fails. */
  method HandleFiles(writer: Writer, dirRoot: string, dirRelative: string, files: seq<Entry>,
                     fp: TextStream?, console: TextStream) returns (r: Result<(), WalkError>)
    requires (forall f :: f in files ==> f.File?) && fp != console
    modifies writer, fp, console
    ensures var want := Process(old(Snapshot(writer, fp, console)), fp != null, FileEvents(dirRoot, dirRelative, files));
      && (r.Success? <==> want.Success?)
      && (r.Success? ==> Snapshot(writer, fp, console) == want.value)
      && (r.Failure? ==> r.error == want.error)
  {
    ghost var st0 := Snapshot(writer, fp, console);
    ghost var tracing := fp != null;
    ghost var fileEvents := FileEvents(dirRoot, dirRelative, files);
    var j := 0;
    while j < |files|
      invariant 0 <= j <= |files|
      invariant Process(st0, tracing, fileEvents[..j]) == Success(Snapshot(writer, fp, console))
    {
      var handled := HandleFileAt(writer, dirRoot, dirRelative, files, j, st0, fp, console);
      if handled.Failure? {
        return handled;
      }
      j := j + 1;
    }
    assert fileEvents[..j] == fileEvents;
    return Success(());
  }

  /** `seek_directories(excel, level, dir_root, dir_relative, fp)`, where
      `dir` is what `dir_root` names. Its effect on the writer, the trace log
      and the console is that of handling the walk's events in order; `level`
      plays no part. */
  method SeekDirectories(writer: Writer, level: int, dirRoot: string, dirRelative: string, dir: Entry,
                         fp: TextStream?, console: TextStream) returns (r: Result<(), WalkError>)
    requires fp != console
    modifies writer, fp, console
    decreases dir, 2
    ensures var want := Process(old(Snapshot(writer, fp, console)), fp != null, Visits(dirRoot, dirRelative, dir));
      && (r.Success? <==> want.Success?)
      && (r.Success? ==> Snapshot(writer, fp, console) == want.value)
      && (r.Failure? ==> r.error == want.error)
  {
    if !dir.Dir? {
      return Failure(CannotList(dirRoot));
    }
    var listing := dir.entries;
    ghost var st0 := Snapshot(writer, fp, console);
    ghost var tracing := fp != null;

    var files, dirs := Partition(listing);

    files := SortByName(files);
    forall f | f in files ensures f.File? {
      SortByNameMembers(FilesOf(listing), f);
      PartitionMembers(listing, f);
    }
    ghost var sortedDirs := SortByName(dirs);
    forall d | d in sortedDirs ensures d in listing {
      SortByNameMembers(DirsOf(listing), d);
      PartitionMembers(listing, d);
    }
    ghost var fileEvents := FileEvents(dirRoot, dirRelative, files);
    ghost var dirEvents := VisitDirs(dirRoot, dirRelative, sortedDirs, dir);
    assert Visits(dirRoot, dirRelative, dir) == fileEvents + dirEvents;
    ProcessConcat(st0, tracing, fileEvents, dirEvents);
    r := HandleFiles(writer, dirRoot, dirRelative, files, fp, console);
    if r.Failure? {
      return;
    }

    dirs := SortByName(dirs);
    r := SeekSubdirectories(writer, level, dirRoot, dirRelative, dirs, dir, fp, console);
  }

  /** The last loop of `seek_directories`: each subdirectory of the level, in
      the given order, walked in turn until one walk fails. */
  method SeekSubdirectories(writer: Writer, level: int, dirRoot: string, dirRelative: string,
                            dirs: seq<Entry>, parent: Entry,
                            fp: TextStream?, console: TextStream) returns (r: Result<(), WalkError>)
    requires parent.Dir? && (forall d :: d in dirs ==> d in parent.entries) && fp != console
    modifies writer, fp, console
    decreases parent, 1
    ensures var want := Process(old(Snapshot(writer, fp, console)), fp != null, VisitDirs(dirRoot, dirRelative, dirs, parent));
      && (r.Success? <==> want.Success?)
      && (r.Success? ==> Snapshot(writer, fp, console) == want.value)
      && (r.Failure? ==> r.error == want.error)
  {
    ghost var st0 := Snapshot(writer, fp, console);
    ghost var tracing := fp != null;
    var k := 0;
    while k < |dirs|
      invariant 0 <= k <= |dirs|
      invariant Process(st0, tracing, VisitDirs(dirRoot, dirRelative, dirs[..k], parent)) ==
        Success(Snapshot(writer, fp, console))
    {
      var sub := SeekSubdirectoryAt(writer, level, dirRoot, dirRelative, dirs, parent, k, st0, fp, console);
      if sub.Failure? {
        return sub;
      }
      k := k + 1;
    }
    assert dirs[..k] == dirs;
    return Success(());
  }

  /** One pass of the last loop, stated against the level's subdirectory
      walks: once the first `k` subdirectories are walked, walking the next one
      as well is handling the events of the first `k + 1`, and a failure is
      the failure of the whole loop. */
  method SeekSubdirectoryAt(writer: Writer, level: int, dirRoot: string, dirRelative: string,
                            dirs: seq<Entry>, parent: Entry, k: nat, ghost st0: Out,
                            fp: TextStream?, console: TextStream) returns (r: Result<(), WalkError>)
    requires parent.Dir? && (forall d :: d in dirs ==> d in parent.entries) && fp != console && k < |dirs|
    requires Process(st0, fp != null, VisitDirs(dirRoot, dirRelative, dirs[..k], parent)) == Success(Snapshot(writer, fp, console))
    modifies writer, fp, console
    decreases parent, 0
    ensures r.Success? ==>
      Process(st0, fp != null, VisitDirs(dirRoot, dirRelative, dirs[..k + 1], parent)) == Success(Snapshot(writer, fp, console))
    ensures r.Failure? ==> Process(st0, fp != null, VisitDirs(dirRoot, dirRelative, dirs, parent)) == Failure(r.error)
  {
    ghost var tracing := fp != null;
    var dirNest := dirs[k];
    ghost var done := VisitDirs(dirRoot, dirRelative, dirs[..k], parent);
    ghost var nested := Visits(PathJoin(dirRoot, dirNest.name), PathJoin(dirRelative, dirNest.name), dirNest);
    assert dirs[..k + 1][..k] == dirs[..k];
    assert VisitDirs(dirRoot, dirRelative, dirs[..k + 1], parent) == done + nested;
    ProcessConcat(st0, tracing, done, nested);
    ghost var mid := Snapshot(writer, fp, console);
    assert dirNest in parent.entries;
    r := SeekDirectories(writer, level + 1, PathJoin(dirRoot, dirNest.name), PathJoin(dirRelative, dirNest.name),
                         dirNest, fp, console);
    if r.Failure? {
      VisitDirsPrefix(dirRoot, dirRelative, dirs, parent, k + 1);
      ProcessPrefixFailure(st0, tracing, done + nested, VisitDirs(dirRoot, dirRelative, dirs, parent));
    }
  }
}
