/**
 * The side panel (src/sidebar.rs): the loaded-files list, the clipboard
 * frame with its label and Clear button, and what Clear does.
 */
module Sidebar {
  import opened Wrappers
  import opened Metadata
  import opened App

  /** The heading above the list of loaded files. */
  function LoadedHeading(windowCount: nat): string
  {
    if windowCount == 0 then "No Files Loaded"
    else if windowCount > 1 then "Loaded files:"
    else "Loaded file:"
  }

  /** The heading depends only on whether there are none, one, or several windows. */
  lemma LoadedHeadingCases(n: nat)
    ensures n == 0 <==> LoadedHeading(n) == "No Files Loaded"
    ensures n == 1 <==> LoadedHeading(n) == "Loaded file:"
    ensures n > 1 <==> LoadedHeading(n) == "Loaded files:"
  {
  }

  /** The names listed in the side panel: those of the windows that have a preview image, in window order. */
  function ListedNames(windows: seq<Window>): (names: seq<string>)
    ensures |names| <= |windows|
    ensures forall n :: n in names <==> exists w :: w in windows && w.hasImage && w.metadata.fileName == n
    ensures (forall w :: w in windows ==> w.hasImage) ==> |names| == |windows|
    decreases |windows|
  {
    if windows == [] then []
    else
      var rest := ListedNames(windows[1..]);
      assert forall w :: w in windows <==> w == windows[0] || w in windows[1..];
      if windows[0].hasImage then [windows[0].metadata.fileName] + rest else rest
  }

  /** After a loader pass, the name of every window it added is listed in the side panel. */
  lemma LoadedNamesListed(prior: seq<Window>, files: seq<DroppedFile>, env: LoadEnv)
    ensures forall w :: w in Pass(files, env).windows ==>
              w.metadata.fileName in ListedNames(prior + Pass(files, env).windows)
  {
    PassMeaning(files, env);
    var all := prior + Pass(files, env).windows;
    forall w | w in Pass(files, env).windows
      ensures w.metadata.fileName in ListedNames(all)
    {
      assert w in all;
    }
  }

  datatype Color = LightGreen | LightRed

  /** The stroke of the clipboard frame. */
  function FrameStroke(slot: Option<CopiedMetadata>): Color
  {
    if slot.Some? then LightGreen else LightRed
  }

  /** The text inside the clipboard frame: the occupant's origin file, or "None". */
  function ClipboardLabel(slot: Option<CopiedMetadata>): string
  {
    match slot
    case Some(meta) => meta.origFile
    case None => "None"
  }

  /** The Clear button is enabled when the slot, as read for the label, is occupied. */
  predicate ClearEnabled(slot: Option<CopiedMetadata>)
  {
    slot.Some?
  }

  /** Frame colour, label and Clear button all follow the slot's occupancy. */
  lemma FrameFollowsSlot(slot: Option<CopiedMetadata>)
    ensures FrameStroke(slot) == LightGreen <==> slot.Some?
    ensures FrameStroke(slot) == LightRed <==> slot.None?
    ensures ClearEnabled(slot) <==> FrameStroke(slot) == LightGreen
    ensures slot.Some? ==> ClipboardLabel(slot) == slot.value.origFile
    ensures slot.None? ==> ClipboardLabel(slot) == "None"
  {
  }

  /** The notification Clear adds. */
  const ClearedToast := Toast("Cleared clipboard", Success, 2.0, true)

  /** `clear_meta_clipboard` on the clipboard state. */
  function Cleared(s: ClipboardState): ClipboardState
  {
    ClipboardState(None, s.toasts + [ClearedToast])
  }

  /**
   * Clear empties the slot whatever it held; clearing twice leaves the same
   * slot as clearing once, but each call adds its own 2 s Success toast.
   */
  lemma ClearEffect(s: ClipboardState)
    ensures Cleared(s).slot.None?
    ensures Cleared(Cleared(s)).slot == Cleared(s).slot
    ensures Cleared(s).toasts == s.toasts + [Toast("Cleared clipboard", Success, 2.0, true)]
    ensures |Cleared(Cleared(s)).toasts| == |s.toasts| + 2
  {
  }

  /** The Clear button is enabled exactly when clicking it would change the slot. */
  lemma ClearEnabledIffSlotChanges(s: ClipboardState)
    ensures ClearEnabled(s.slot) <==> Cleared(s).slot != s.slot
  {
  }

  /** `clear_meta_clipboard`: adds the toast, then empties the slot. */
  method ClearMetaClipboard(tool: MetadataTool)
    modifies tool`copied, tool`toasts
    ensures tool.Clipboard() == Cleared(old(tool.Clipboard()))
    ensures tool.copied == None
    ensures tool.toasts == old(tool.toasts) + [ClearedToast]
  {
    tool.toasts := tool.toasts + [ClearedToast];
    tool.copied := None;
  }

  /** What the side panel shows in one frame. */
  datatype SidebarView = SidebarView(
    heading: string,
    listed: seq<string>,
    stroke: Color,
    clipboardLabel: string,
    clearEnabled: bool)

  /**
   * `create_sidebar`: runs the loader, then shows the heading and the names;
   * once at least one window exists the dropped-files list is emptied. The
   * clipboard frame is drawn from the slot as it stands.
   */
  method CreateSidebar(app: MetadataTool, env: LoadEnv) returns (view: SidebarView, stoppedAt: Option<nat>)
    modifies app`windows, app`droppedFiles
    ensures app.windows == old(app.windows) + Pass(old(app.droppedFiles), env).windows
    ensures stoppedAt == Pass(old(app.droppedFiles), env).stoppedAt
    ensures app.droppedFiles == if app.windows == [] then old(app.droppedFiles) else []
    ensures view.heading == LoadedHeading(|app.windows|)
    ensures view.listed == (if app.windows == [] then [] else ListedNames(app.windows))
    ensures view.stroke == FrameStroke(app.copied)
    ensures view.clipboardLabel == ClipboardLabel(app.copied)
    ensures view.clearEnabled <==> app.copied.Some?
  {
    stoppedAt := app.LoadFilesOrErr(env);
    var listed: seq<string> := [];
    if app.windows != [] {
      app.droppedFiles := [];
      listed := ListedNames(app.windows);
    }
    var slot := app.copied;
    view := SidebarView(LoadedHeading(|app.windows|), listed, FrameStroke(slot), ClipboardLabel(slot), slot.Some?);
  }
}
