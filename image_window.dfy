/**
 * The per-window metadata controls (src/image_window.rs): the Copy and
 * Paste buttons, when they are enabled, and what clicking them does to the
 * clipboard slot and the toast log.
 */
module ImageWindow {
  import opened Wrappers
  import opened Metadata
  import opened App

  /** The Copy (and Download) button is enabled when the record carries a chunk. */
  predicate CopyEnabled(m: ImageMetadata)
  {
    m.chunk.Some?
  }

  /** The Paste button is enabled when the clipboard slot is occupied. */
  predicate PasteEnabled(slot: Option<CopiedMetadata>)
  {
    slot.Some?
  }

  /** The Paste button's hover text. */
  function PasteHoverText(m: ImageMetadata): string
  {
    if m.chunk.Some? then "Overwrite" else "Paste"
  }

  /** The word after "Metadata:" in the collapsing header. */
  function MetadataIndicator(m: ImageMetadata): string
  {
    if m.chunk.Some? then "Yes" else "None"
  }

  /** The notification a successful copy adds. */
  function CopyToast(name: string): Toast
  {
    Toast("Copied metadata for " + name, Success, 1.5, true)
  }

  /** `copy_metadata` on the clipboard state. */
  function Copied(s: ClipboardState, m: ImageMetadata): ClipboardState
  {
    match m.chunk
    case None => s
    case Some(raw) =>
      ClipboardState(Some(CopiedMetadata(m.fileName, raw)), s.toasts + [CopyToast(m.fileName)])
  }

  /**
   * `paste_metadata` on the clipboard state; `None` when the unwrap of the
   * slot panics. The slot's occupant is read and then not used: the target's
   * own chunk goes into the slot.
   */
  function Pasted(s: ClipboardState, target: ImageMetadata): Option<ClipboardState>
  {
    if s.slot.None? then None
    else
      match target.chunk
      case None => Some(s)
      case Some(raw) =>
        Some(ClipboardState(Some(CopiedMetadata(target.fileName, raw)),
                            s.toasts + [CopyToast(target.fileName)]))
  }

  /**
   * A copy from a record with a chunk puts that record's name and chunk in the
   * slot whatever the slot held before (last writer wins), and appends one
   * Success toast of 1.5 s with progress shown; from a record without a chunk
   * it changes neither the slot nor the toasts.
   */
  lemma CopyEffect(s: ClipboardState, m: ImageMetadata)
    ensures m.chunk.Some? ==>
              Copied(s, m).slot == Some(CopiedMetadata(m.fileName, m.chunk.value)) &&
              Copied(s, m).toasts == s.toasts + [Toast("Copied metadata for " + m.fileName, Success, 1.5, true)]
    ensures m.chunk.None? ==> Copied(s, m) == s
  {
  }

  /** The slot after a copy does not depend on the slot before it when the record has a chunk. */
  lemma CopyDiscardsPriorOccupant(s1: ClipboardState, s2: ClipboardState, m: ImageMetadata)
    requires m.chunk.Some?
    ensures Copied(s1, m).slot == Copied(s2, m).slot
  {
  }

  /** The Copy button is enabled exactly when clicking it would change the state. */
  lemma CopyEnabledIffEffective(s: ClipboardState, m: ImageMetadata)
    ensures CopyEnabled(m) <==> Copied(s, m) != s
  {
  }

  /** The Paste button is enabled exactly when clicking it would not panic. */
  lemma PasteEnabledIffNoPanic(s: ClipboardState, target: ImageMetadata)
    ensures PasteEnabled(s.slot) <==> Pasted(s, target).Some?
  {
  }

  /**
   * As written, a paste that does not panic does to the slot and the toasts
   * exactly what a copy from the target does; the slot's previous occupant
   * plays no part in the result.
   */
  lemma PasteActsAsCopyOfTarget(s: ClipboardState, target: ImageMetadata)
    requires s.slot.Some?
    ensures Pasted(s, target) == Some(Copied(s, target))
  {
  }

  /** The hover text says "Overwrite", and the indicator "Yes", exactly when the target has a chunk, that is when Copy is enabled. */
  lemma LabelsFollowChunk(m: ImageMetadata)
    ensures PasteHoverText(m) == "Overwrite" <==> CopyEnabled(m)
    ensures PasteHoverText(m) == "Paste" <==> !CopyEnabled(m)
    ensures MetadataIndicator(m) == "Yes" <==> CopyEnabled(m)
  {
  }

  /** `copy_metadata`: overwrites the slot and adds a toast when the record has a chunk; otherwise does nothing. */
  method CopyMetadata(tool: MetadataTool, m: ImageMetadata)
    modifies tool`copied, tool`toasts
    ensures tool.Clipboard() == Copied(old(tool.Clipboard()), m)
    ensures m.chunk.Some? ==> tool.copied == Some(CopiedMetadata(m.fileName, m.chunk.value))
    ensures m.chunk.Some? ==> tool.toasts == old(tool.toasts) + [CopyToast(m.fileName)]
    ensures m.chunk.None? ==> tool.copied == old(tool.copied) && tool.toasts == old(tool.toasts)
  {
    if m.chunk.Some? {
      var raw := m.chunk.value;
      tool.copied := Some(CopiedMetadata(m.fileName, raw));
      tool.toasts := tool.toasts + [CopyToast(m.fileName)];
    }
  }

  /**
   * `paste_metadata`: the slot must be occupied (the program unwraps it, and
   * the button is disabled otherwise); then it behaves as a copy from the target.
   */
  method PasteMetadata(tool: MetadataTool, target: ImageMetadata)
    requires tool.copied.Some?
    modifies tool`copied, tool`toasts
    ensures Some(tool.Clipboard()) == Pasted(old(tool.Clipboard()), target)
    ensures target.chunk.Some? ==> tool.copied == Some(CopiedMetadata(target.fileName, target.chunk.value))
    ensures target.chunk.Some? ==> tool.toasts == old(tool.toasts) + [CopyToast(target.fileName)]
    ensures target.chunk.None? ==> tool.copied == old(tool.copied) && tool.toasts == old(tool.toasts)
  {
    var metaToPaste := tool.copied.value;
    if target.chunk.Some? {
      var raw := target.chunk.value;
      tool.copied := Some(CopiedMetadata(target.fileName, raw));
      tool.toasts := tool.toasts + [CopyToast(target.fileName)];
    }
  }
}
