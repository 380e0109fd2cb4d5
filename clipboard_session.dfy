/**
 * Sequences of clipboard operations as the viewer windows and the side panel
 * issue them: copy from a window, paste into a window, clear.
 */
module ClipboardSession {
  import opened Wrappers
  import opened Metadata
  import opened App
  import opened ImageWindow
  import opened Sidebar

  datatype Action = CopyFrom(source: ImageMetadata) | PasteInto(target: ImageMetadata) | Clear

  /** One operation; `None` when it panics. */
  function Step(s: ClipboardState, a: Action): Option<ClipboardState>
  {
    match a
    case CopyFrom(m) => Some(Copied(s, m))
    case PasteInto(m) => Pasted(s, m)
    case Clear => Some(Cleared(s))
  }

  /** Operations one after another, from the first; `None` once one panics. */
  function Run(s: ClipboardState, actions: seq<Action>): Option<ClipboardState>
    decreases |actions|
  {
    if actions == [] then Some(s)
    else match Step(s, actions[0])
      case None => None
      case Some(s') => Run(s', actions[1..])
  }

  /**
   * The reference for the slot: scanning from the last operation backwards,
   * the first copy or paste of a record with a chunk, or the first clear,
   * decides the occupant; if there is none, the initial occupant stays.
   */
  function LastWrite(initial: Option<CopiedMetadata>, actions: seq<Action>): Option<CopiedMetadata>
    decreases |actions|
  {
    if actions == [] then initial
    else
      var a := actions[|actions| - 1];
      match a
      case Clear => None
      case CopyFrom(m) =>
        if m.chunk.Some? then Some(CopiedMetadata(m.fileName, m.chunk.value))
        else LastWrite(initial, actions[..|actions| - 1])
      case PasteInto(m) =>
        if m.chunk.Some? then Some(CopiedMetadata(m.fileName, m.chunk.value))
        else LastWrite(initial, actions[..|actions| - 1])
  }

  /** The toasts one operation adds, whatever the state it meets. */
  function ActionToasts(a: Action): seq<Toast>
  {
    match a
    case Clear => [ClearedToast]
    case CopyFrom(m) => if m.chunk.Some? then [CopyToast(m.fileName)] else []
    case PasteInto(m) => if m.chunk.Some? then [CopyToast(m.fileName)] else []
  }

  function ToastsOf(actions: seq<Action>): seq<Toast>
    decreases |actions|
  {
    if actions == [] then []
    else ToastsOf(actions[..|actions| - 1]) + ActionToasts(actions[|actions| - 1])
  }

  /** Running one more operation continues from where the run stood. */
  lemma {:induction false} RunSnoc(s: ClipboardState, actions: seq<Action>, a: Action)
    ensures Run(s, actions + [a]) ==
              (match Run(s, actions) case None => None case Some(t) => Step(t, a))
    decreases |actions|
  {
    if actions == [] {
      assert [] + [a] == [a];
      assert [a][1..] == [];
    } else {
      assert (actions + [a])[0] == actions[0];
      assert (actions + [a])[1..] == actions[1..] + [a];
      match Step(s, actions[0])
      case None =>
      case Some(s') => RunSnoc(s', actions[1..], a);
    }
  }

  /**
   * Last writer wins: after any run that does not panic, the slot holds
   * exactly what the last effective copy, paste or clear put there.
   */
  lemma {:induction false} RunSlotIsLastWrite(s: ClipboardState, actions: seq<Action>)
    requires Run(s, actions).Some?
    ensures Run(s, actions).value.slot == LastWrite(s.slot, actions)
    decreases |actions|
  {
    if actions != [] {
      var init := actions[..|actions| - 1];
      var a := actions[|actions| - 1];
      assert actions == init + [a];
      RunSnoc(s, init, a);
      RunSlotIsLastWrite(s, init);
    }
  }

  /** The toast log only grows: each operation appends its own toasts, in order. */
  lemma {:induction false} RunToasts(s: ClipboardState, actions: seq<Action>)
    requires Run(s, actions).Some?
    ensures Run(s, actions).value.toasts == s.toasts + ToastsOf(actions)
    decreases |actions|
  {
    if actions != [] {
      var init := actions[..|actions| - 1];
      var a := actions[|actions| - 1];
      assert actions == init + [a];
      RunSnoc(s, init, a);
      RunToasts(s, init);
    }
  }

  /** A run panics exactly when some paste meets an empty slot. */
  lemma {:induction false} RunPanicsIff(s: ClipboardState, actions: seq<Action>)
    ensures Run(s, actions).None? <==>
              exists i :: 0 <= i < |actions| && actions[i].PasteInto? && LastWrite(s.slot, actions[..i]).None?
    decreases |actions|
  {
    if actions != [] {
      var n := |actions| - 1;
      var init := actions[..n];
      var a := actions[n];
      assert actions == init + [a];
      RunSnoc(s, init, a);
      RunPanicsIff(s, init);
      forall i | 0 <= i < n
        ensures actions[..i] == init[..i] && actions[i] == init[i]
      {
      }
      assert actions[..n] == init;
      if Run(s, init).Some? {
        RunSlotIsLastWrite(s, init);
      }
    }
  }

  /** A copy from each record, in order. */
  function Copies(sources: seq<ImageMetadata>): (actions: seq<Action>)
    ensures |actions| == |sources|
  {
    seq(|sources|, i requires 0 <= i < |sources| => CopyFrom(sources[i]))
  }

  /** The name and chunk of the last record with a chunk, else the initial occupant. */
  function LastCopied(initial: Option<CopiedMetadata>, sources: seq<ImageMetadata>): Option<CopiedMetadata>
    decreases |sources|
  {
    if sources == [] then initial
    else
      var m := sources[|sources| - 1];
      if m.chunk.Some? then Some(CopiedMetadata(m.fileName, m.chunk.value))
      else LastCopied(initial, sources[..|sources| - 1])
  }

  /**
   * Every sequence of copies ends with the slot holding the name and chunk of
   * the last record copied that had a chunk, or the initial occupant when none
   * had one.
   */
  lemma {:induction false} CopiesOverwrite(s: ClipboardState, sources: seq<ImageMetadata>)
    ensures Run(s, Copies(sources)).Some?
    ensures Run(s, Copies(sources)).value.slot == LastCopied(s.slot, sources)
    decreases |sources|
  {
    if sources != [] {
      var init := sources[..|sources| - 1];
      var m := sources[|sources| - 1];
      assert Copies(sources) == Copies(init) + [CopyFrom(m)];
      RunSnoc(s, Copies(init), CopyFrom(m));
      CopiesOverwrite(s, init);
    }
  }
}
