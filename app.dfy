/**
 * The application shell (src/app.rs): the clipboard slot and its entry
 * type, the loaded windows, the hovered-files banner and the batch loader.
 */
module App {
  import opened Wrappers
  import opened Metadata

  /** What the clipboard slot holds: the origin file's name and its chunk. */
  datatype CopiedMetadata = CopiedMetadata(origFile: string, metadata: Chunk)

  /** The metadata text a window shows: none, or the chunk's debug rendering. */
  datatype MetadataStatus = NoMeta | Meta(text: string)

  /** One viewer window. The retained preview texture is reduced to whether it exists. */
  datatype Window = Window(hasImage: bool, metadata: ImageMetadata, text: MetadataStatus, isOpen: bool)

  datatype ToastKind = Success

  /** A notification: its text, kind, duration in seconds and whether the progress bar shows. */
  datatype Toast = Toast(text: string, kind: ToastKind, durationSeconds: real, showProgress: bool)

  /** The part of the state that copy, paste and clear touch: the slot and the toast log. */
  datatype ClipboardState = ClipboardState(slot: Option<CopiedMetadata>, toasts: seq<Toast>)

  /** A file hovering over the window, not yet dropped. */
  datatype HoveredFile = HoveredFile(path: Option<OsPath>, mime: string)

  /** The first line of the hovered-files banner. */
  const BannerHeader := "Dropping files:\n"

  /** The label of one hovered file: its path, else its MIME type if any, else "Image". */
  function BannerLabel(f: HoveredFile): string
  {
    if f.path.Some? then f.path.value.display
    else if f.mime != "" then f.mime
    else "Image"
  }

  /** One "\n<label>" per hovered file, in order. */
  function BannerLines(files: seq<HoveredFile>): string
    decreases |files|
  {
    if files == [] then ""
    else BannerLines(files[..|files| - 1]) + "\n" + BannerLabel(files[|files| - 1])
  }

  /** The lines of a concatenation are the concatenation of the lines. */
  lemma {:induction false} BannerLinesAppend(a: seq<HoveredFile>, b: seq<HoveredFile>)
    ensures BannerLines(a + b) == BannerLines(a) + BannerLines(b)
    decreases |b|
  {
    if b != [] {
      var b' := b[..|b| - 1];
      assert (a + b)[..|a + b| - 1] == a + b';
      BannerLinesAppend(a, b');
    } else {
      assert a + b == a;
    }
  }

  /** The banner lines are, for every file i, those of the files before it, then "\n" and its label, then those after it. */
  lemma BannerLineAt(files: seq<HoveredFile>, i: nat)
    requires i < |files|
    ensures BannerLines(files) ==
              BannerLines(files[..i]) + "\n" + BannerLabel(files[i]) + BannerLines(files[i + 1..])
  {
    var upto := files[..i + 1];
    assert files == upto + files[i + 1..];
    BannerLinesAppend(upto, files[i + 1..]);
    assert upto[..|upto| - 1] == files[..i];
  }

  /** The number of newline characters in a string. */
  function Newlines(s: string): nat
  {
    if s == [] then 0 else (if s[0] == '\n' then 1 else 0) + Newlines(s[1..])
  }

  lemma {:induction false} NewlinesAppend(a: string, b: string)
    ensures Newlines(a + b) == Newlines(a) + Newlines(b)
  {
    if a != [] {
      assert (a + b)[1..] == a[1..] + b;
      NewlinesAppend(a[1..], b);
    } else {
      assert a + b == b;
    }
  }

  lemma {:induction false} NewlinesAbsent(s: string)
    requires '\n' !in s
    ensures Newlines(s) == 0
  {
    if s != [] {
      NewlinesAbsent(s[1..]);
    }
  }

  /** When no label contains a line break, the banner lines hold exactly one line break per hovered file. */
  lemma {:induction false} BannerOneLinePerFile(files: seq<HoveredFile>)
    requires forall i :: 0 <= i < |files| ==> '\n' !in BannerLabel(files[i])
    ensures Newlines(BannerLines(files)) == |files|
    decreases |files|
  {
    if files != [] {
      var init := files[..|files| - 1];
      var last := BannerLabel(files[|files| - 1]);
      BannerOneLinePerFile(init);
      NewlinesAppend(BannerLines(init) + "\n", last);
      NewlinesAppend(BannerLines(init), "\n");
      NewlinesAbsent(last);
      assert Newlines("\n") == 1 by { assert "\n"[1..] == ""; }
    }
  }

  /**
   * `preview_files_being_dropped`: nothing is built when no file hovers;
   * otherwise the header followed by one line per hovered file.
   */
  method PreviewFilesBeingDropped(hovered: seq<HoveredFile>) returns (text: Option<string>)
    ensures text.None? <==> hovered == []
    ensures text.Some? ==> text.value == BannerHeader + BannerLines(hovered)
  {
    if hovered == [] {
      return None;
    }
    var t := BannerHeader;
    var i := 0;
    while i < |hovered|
      invariant 0 <= i <= |hovered|
      invariant t == BannerHeader + BannerLines(hovered[..i])
    {
      var file := hovered[i];
      if file.path.Some? {
        t := t + "\n" + file.path.value.display;
      } else if file.mime != "" {
        t := t + "\n" + file.mime;
      } else {
        t := t + "\nImage";
      }
      assert hovered[..i + 1][..i] == hovered[..i];
      i := i + 1;
    }
    assert hovered[..i] == hovered;
    return Some(t);
  }

  /**
   * The collaborators the loader calls and that are not modelled: reading a
   * native path, PNG decoding, the dmi crate's loader (absent on failure,
   * otherwise the optional zTXt chunk) and the chunk's pretty debug form.
   */
  datatype LoadEnv = LoadEnv(
    readPath: OsPath -> Option<seq<byte>>,
    decodesAsPng: seq<byte> -> bool,
    loadDmi: seq<byte> -> Option<Option<Chunk>>,
    debug: Chunk -> string)

  /** `load_file_contents`: the path is read when there is one; otherwise the uploaded bytes are used. */
  function LoadFileContents(file: DroppedFile, readPath: OsPath -> Option<seq<byte>>): (r: Option<seq<byte>>)
    ensures file.path.Some? ==> r == readPath(file.path.value)
    ensures file.path.None? ==> r == file.bytes
  {
    if file.path.Some? then readPath(file.path.value) else file.bytes
  }

  /** The metadata text of a new window: the debug rendering of the chunk, if any. */
  function MetadataText(chunk: Option<Chunk>, debug: Chunk -> string): MetadataStatus
  {
    match chunk
    case None => NoMeta
    case Some(c) => Meta(debug(c))
  }

  /** The window a successful load creates. */
  function NewWindow(file: DroppedFile, chunk: Option<Chunk>, debug: Chunk -> string): (w: Window)
    ensures w.isOpen && w.hasImage
    ensures w.metadata == New(chunk, file)
    ensures w.text.NoMeta? <==> chunk.None?
    ensures chunk.Some? ==> w.text == Meta(debug(chunk.value))
  {
    Window(true, New(chunk, file), MetadataText(chunk, debug), true)
  }

  /** What the loader does with one dropped file. */
  datatype FileOutcome =
    | Unreadable          // no bytes could be obtained: skipped
    | EmptyBytes          // an empty buffer: the pass ends
    | DecodeFailed        // not a PNG: an error label, and the pass ends
    | NotDmi              // the dmi loader failed: skipped
    | Loaded(window: Window)

  predicate Aborts(o: FileOutcome)
  {
    o.EmptyBytes? || o.DecodeFailed?
  }

  function ProcessFile(file: DroppedFile, env: LoadEnv): FileOutcome
  {
    var contents := LoadFileContents(file, env.readPath);
    if contents.None? then Unreadable
    else if |contents.value| == 0 then EmptyBytes
    else if !env.decodesAsPng(contents.value) then DecodeFailed
    else match env.loadDmi(contents.value)
      case None => NotDmi
      case Some(chunk) => Loaded(NewWindow(file, chunk, env.debug))
  }

  /** The windows one pass over the dropped files creates, and the index of the file that ended the pass early, if any. */
  datatype BatchResult = BatchResult(windows: seq<Window>, stoppedAt: Option<nat>)

  /** One pass of `load_files_or_err` over `files`, file by file. */
  function Pass(files: seq<DroppedFile>, env: LoadEnv): BatchResult
    decreases |files|
  {
    if files == [] then BatchResult([], None)
    else
      var before := Pass(files[..|files| - 1], env);
      if before.stoppedAt.Some? then before
      else match ProcessFile(files[|files| - 1], env)
        case EmptyBytes => BatchResult(before.windows, Some(|files| - 1))
        case DecodeFailed => BatchResult(before.windows, Some(|files| - 1))
        case Loaded(w) => BatchResult(before.windows + [w], None)
        case Unreadable => before
        case NotDmi => before
  }

  /**
   * What a pass does: it ends at the first empty buffer or PNG decode
   * failure, if any; every file before that point that loads adds exactly
   * its window, and no other window is added; every window added is open,
   * has its preview, and shows "no metadata" exactly when it has no chunk.
   */
  lemma {:induction false} PassMeaning(files: seq<DroppedFile>, env: LoadEnv)
    ensures |Pass(files, env).windows| <= |files|
    ensures Pass(files, env).stoppedAt.Some? ==>
              Pass(files, env).stoppedAt.value < |files| &&
              Aborts(ProcessFile(files[Pass(files, env).stoppedAt.value], env))
    ensures forall i :: 0 <= i < |files| && Before(i, Pass(files, env).stoppedAt) ==>
              !Aborts(ProcessFile(files[i], env))
    ensures forall i :: 0 <= i < |files| && Before(i, Pass(files, env).stoppedAt) ==>
              (ProcessFile(files[i], env).Loaded? ==> ProcessFile(files[i], env).window in Pass(files, env).windows)
    ensures forall w :: w in Pass(files, env).windows ==>
              exists i :: 0 <= i < |files| && ProcessFile(files[i], env) == Loaded(w)
    ensures forall w :: w in Pass(files, env).windows ==>
              w.isOpen && w.hasImage && (w.text.NoMeta? <==> w.metadata.chunk.None?)
    decreases |files|
  {
    if files != [] {
      var init := files[..|files| - 1];
      PassMeaning(init, env);
      forall w | w in Pass(init, env).windows
        ensures exists i :: 0 <= i < |files| && ProcessFile(files[i], env) == Loaded(w)
      {
        var i :| 0 <= i < |init| && ProcessFile(init[i], env) == Loaded(w);
        assert files[i] == init[i];
      }
    }
  }

  /** Reference for the windows: those of the files that load, in file order, one per such file. */
  function Loads(files: seq<DroppedFile>, env: LoadEnv): seq<Window>
    decreases |files|
  {
    if files == [] then []
    else
      (match ProcessFile(files[0], env) case Loaded(w) => [w] case _ => []) + Loads(files[1..], env)
  }

  lemma {:induction false} LoadsAppend(a: seq<DroppedFile>, b: seq<DroppedFile>, env: LoadEnv)
    ensures Loads(a + b, env) == Loads(a, env) + Loads(b, env)
    decreases |a|
  {
    if a == [] {
      assert a + b == b;
    } else {
      assert (a + b)[0] == a[0];
      assert (a + b)[1..] == a[1..] + b;
      LoadsAppend(a[1..], b, env);
    }
  }

  /** The index of the file that stopped the pass, or `n` when none did. */
  function StopOr(r: BatchResult, n: nat): nat
  {
    if r.stoppedAt.Some? then r.stoppedAt.value else n
  }

  /**
   * A pass adds exactly the windows of the files before the stopping file that
   * load, one each and in file order; files from the stopping one on add none.
   */
  lemma {:induction false} PassIsLoadsBeforeStop(files: seq<DroppedFile>, env: LoadEnv)
    ensures StopOr(Pass(files, env), |files|) <= |files|
    ensures Pass(files, env).windows == Loads(files[..StopOr(Pass(files, env), |files|)], env)
    decreases |files|
  {
    if files == [] {
      assert files[..0] == [];
    } else {
      var n := |files| - 1;
      var init := files[..n];
      PassIsLoadsBeforeStop(init, env);
      var k := StopOr(Pass(init, env), |init|);
      assert files[..k] == init[..k];
      if Pass(init, env).stoppedAt.None? {
        assert init[..k] == init;
        assert files[..n + 1] == files == init + [files[n]];
        LoadsAppend(init, [files[n]], env);
        assert [files[n]][1..] == [];
      }
    }
  }

  /** Whether file `i` comes before the file that stopped the pass (every file does when none did). */
  predicate Before(i: nat, stoppedAt: Option<nat>)
  {
    stoppedAt.None? || i < stoppedAt.value
  }

  /** Once a pass has stopped, the files after the one that stopped it change nothing. */
  lemma {:induction false} StopIsFinal(files: seq<DroppedFile>, later: seq<DroppedFile>, env: LoadEnv)
    requires Pass(files, env).stoppedAt.Some?
    ensures Pass(files + later, env) == Pass(files, env)
    decreases |later|
  {
    if later == [] {
      assert files + later == files;
    } else {
      var later' := later[..|later| - 1];
      assert (files + later)[..|files + later| - 1] == files + later';
      StopIsFinal(files, later', env);
    }
  }

  /**
   * The application: the loaded windows, the files dropped in the last frame,
   * the toast log and the clipboard slot. The slot is a process-wide global
   * in the program; here it is a field of the one application object.
   */
  class MetadataTool {
    var windows: seq<Window>
    var droppedFiles: seq<DroppedFile>
    var toasts: seq<Toast>
    var copied: Option<CopiedMetadata>

    /** Everything starts empty, the clipboard slot included. */
    constructor ()
      ensures windows == [] && droppedFiles == [] && toasts == []
      ensures copied == None
    {
      windows := [];
      droppedFiles := [];
      toasts := [];
      copied := None;
    }

    function Clipboard(): ClipboardState
      reads this
    {
      ClipboardState(copied, toasts)
    }

    /**
     * `load_files_or_err`: one pass over the dropped files, appending one
     * open window per file that loads, returning early on an empty buffer or
     * a PNG decode failure.
     */
    method LoadFilesOrErr(env: LoadEnv) returns (stoppedAt: Option<nat>)
      modifies this`windows
      ensures windows == old(windows) + Pass(droppedFiles, env).windows
      ensures stoppedAt == Pass(droppedFiles, env).stoppedAt
    {
      var files := droppedFiles;
      stoppedAt := None;
      if files == [] {
        return;
      }
      var i := 0;
      while i < |files|
        invariant 0 <= i <= |files|
        invariant windows == old(windows) + Pass(files[..i], env).windows
        invariant Pass(files[..i], env).stoppedAt == None
      {
        var file := files[i];
        assert files[..i + 1][..i] == files[..i];
        assert files == files[..i + 1] + files[i + 1..];
        var contents := LoadFileContents(file, env.readPath);
        if contents.Some? {
          var bytes := contents.value;
          if |bytes| == 0 {
            stoppedAt := Some(i);
            StopIsFinal(files[..i + 1], files[i + 1..], env);
            return;
          }
          if !env.decodesAsPng(bytes) {
            stoppedAt := Some(i);
            StopIsFinal(files[..i + 1], files[i + 1..], env);
            return;
          }
          var raw := env.loadDmi(bytes);
          if raw.Some? {
            windows := windows + [NewWindow(file, raw.value, env.debug)];
          }
        }
        i := i + 1;
      }
      assert files[..i] == files;
    }
  }
}
