# MetaYoinker metadata clipboard, modelled in Dafny

MetaYoinker is a small egui application: the user drops BYOND DMI sprite
sheets (PNG files with a zTXt metadata chunk) on the window, each loaded file
gets a viewer window, and a single process-wide clipboard slot lets the user
copy one file's metadata chunk; a Paste button stands beside it. This
project models the logic around that slot and the per-file record:

- `metadata.dfy` (module `Metadata`): the record `ImageMetadata` (file name
  and optional chunk), display-name derivation, and the `Display` text.
- `app.dfy` (module `App`): the clipboard entry type, toasts, windows, the
  hovered-files banner, the batch loader `load_files_or_err`, and the
  application object `MetadataTool`, whose field `copied` stands for the
  global `GLOB_COPIED_METADATA` slot.
- `image_window.dfy` (module `ImageWindow`): the Copy and Paste buttons,
  their enablement and hover text, and `copy_metadata` / `paste_metadata`.
- `sidebar.dfy` (module `Sidebar`): the loaded-files heading and list, the
  clipboard frame, the Clear button and `clear_meta_clipboard`.
- `clipboard_session.dfy` (module `ClipboardSession`): runs of copy, paste
  and clear, with last-writer-wins, toast-log and panic characterisations.
- `wrappers.dfy`: the `Option` type.

Copy, paste and clear are methods over `MetadataTool` that change only its
`copied` and `toasts` fields; each is tied to a function on the pair
(slot, toast log) (`Copied`, `Pasted`, `Cleared`), and the lemmas are about
those functions. The loader and the banner are loops proved against the
functions `Pass` and `BannerLines`.

Two behaviours of the code are worth stating plainly:

- Paste never rewrites or saves a file. It unwraps the slot (panicking when
  it is empty), ignores the occupant it read, and then does what Copy does
  with the *target* record: it overwrites the slot with the target's name and
  chunk and adds the "Copied metadata for …" toast (`PasteActsAsCopyOfTarget`).
- An empty file or a PNG decode failure ends the whole pass: the `return`
  inside the `ui.group` closure skips every later file of the batch
  (`StopIsFinal`, `PassIsLoadsBeforeStop`). Once any window exists the side
  panel empties the dropped-files list (src/sidebar.rs:25), so those later
  files are never loaded; while no window exists, the same pass runs again
  each frame and stops at the same file.

## Model

| member | source | states |
|---|---|---|
| Metadata.New | src/metadata.rs:12-33 | the chunk is stored unchanged and the name is the derived display name |
| Metadata.DisplayNameCases | src/metadata.rs:16-30 | the name is the path's file name; "???" for a path without one; the upload name without a path when it is non-empty; "???" otherwise (the same rule as src/app.rs:175-188) |
| Metadata.PathTakesPriority | src/metadata.rs:17-26 | two files with the same path get the same name whatever their upload names: a path always wins and a path without a file name never falls back to the upload name |
| Metadata.DisplayNameNonEmpty | src/metadata.rs:16-30 | when the platform's file name is non-empty, the display name is never empty |
| Metadata.FormatLayout | src/metadata.rs:37-48 | the text begins with "# " + name + "\n"; what follows is the chunk's debug text, or "No metadata" when there is no chunk |
| Metadata.FormatSaysNoMetadataIff | src/metadata.rs:38-46 | if no debug text is literally "No metadata", the body is "No metadata" exactly when the chunk is absent |
| App.BannerLineAt | src/app.rs:73-85 | for every hovered file i, the lines are those of the files before it, then "\n" and its label, then those of the files after it: one line per file, in order |
| App.BannerOneLinePerFile | src/app.rs:74-84 | when no label contains a line break, the banner lines contain exactly one line break per hovered file |
| App.PreviewFilesBeingDropped | src/app.rs:66-85 | no text is built when no file hovers; otherwise the text is "Dropping files:\n" followed by the lines of the hovered files, each the path, else the non-empty MIME type, else "Image" |
| App.LoadFileContents | src/app.rs:102-116 | a file with a path is read from the path (and never falls back to its uploaded bytes); a file without one yields its uploaded bytes, if any |
| App.NewWindow | src/app.rs:148-194 | a loaded window is open, has its preview, carries the record built by `New`, and its text is NoMeta exactly when the chunk is absent, else the chunk's debug text |
| App.PassMeaning | src/app.rs:118-201 | a pass ends at the first empty buffer or PNG decode failure, if any; the window of every file before it that loads is among those added, every added window comes from a file that loads, there are no more windows than files, and every added window is open with NoMeta iff no chunk |
| App.PassIsLoadsBeforeStop | src/app.rs:123-195 | the windows a pass adds are exactly those of the files before the stopping file (all files when none stops) that load, one per such file, in file order; files from the stopping one on add none |
| App.StopIsFinal | src/app.rs:123-145 | once an empty buffer or decode failure has stopped the pass, appending more files changes neither the windows nor the stopping index |
| App.MetadataTool.constructor | src/app.rs:16-17 | the clipboard slot starts empty, as do the windows, dropped files and toasts |
| App.MetadataTool.LoadFilesOrErr | src/app.rs:118-201 | the loop appends exactly the windows of `Pass` over the dropped files and reports where it stopped; nothing else changes |
| ImageWindow.CopyEffect | src/image_window.rs:108-126 | copying a record with a chunk sets the slot to its name and chunk and appends one Success toast "Copied metadata for <name>" of 1.5 s with progress; without a chunk nothing changes |
| ImageWindow.CopyDiscardsPriorOccupant | src/image_window.rs:109-116 | the slot after a copy of a record with a chunk does not depend on the previous occupant (last writer wins) |
| ImageWindow.CopyEnabledIffEffective | src/image_window.rs:42-50 | the Copy button is enabled exactly when clicking it changes the state |
| ImageWindow.PasteEnabledIffNoPanic | src/image_window.rs:128-131 | the Paste button (enabled iff the slot is occupied, line 52) is enabled exactly when paste does not panic on its unwrap |
| ImageWindow.PasteActsAsCopyOfTarget | src/image_window.rs:128-148 | with an occupied slot, paste yields exactly the state a copy from the target yields; the previous occupant is not used |
| ImageWindow.LabelsFollowChunk | src/image_window.rs:55-97 | the hover text is "Overwrite" exactly when the target has a chunk and "Paste" otherwise; the "Metadata:" indicator says "Yes" exactly then |
| ImageWindow.CopyMetadata | src/image_window.rs:108-126 | with a chunk the slot holds the record's name and chunk and one copy toast is appended; without one neither slot nor toasts change; the windows and the record are untouched |
| ImageWindow.PasteMetadata | src/image_window.rs:128-148 | requires an occupied slot; with a target chunk the slot holds the target's own name and chunk and one copy toast is appended; without one nothing changes |
| Sidebar.LoadedHeadingCases | src/sidebar.rs:13-23 | "No Files Loaded" exactly when there is no window, "Loaded file:" exactly for one, "Loaded files:" exactly for more than one |
| Sidebar.ListedNames | src/sidebar.rs:26-30 | a name is listed exactly when some window with a preview image has it; never more names than windows, and all of them when every window has an image |
| Sidebar.LoadedNamesListed | src/sidebar.rs:25-30 | after a loader pass, the name of every window it added appears in the side panel list |
| Sidebar.FrameFollowsSlot | src/sidebar.rs:45-72 | the frame is LIGHT_GREEN exactly when the slot is occupied and LIGHT_RED otherwise; the label is the occupant's file name, else "None"; Clear is enabled exactly when the frame is green |
| Sidebar.ClearEffect | src/sidebar.rs:84-93 | clear always empties the slot; clearing twice leaves the same slot as once, but each call appends a "Cleared clipboard" Success toast of 2 s |
| Sidebar.ClearEnabledIffSlotChanges | src/sidebar.rs:68-76 | the Clear button is enabled exactly when clicking it changes the slot |
| Sidebar.ClearMetaClipboard | src/sidebar.rs:84-93 | the slot is empty afterwards and exactly one "Cleared clipboard" toast is appended |
| Sidebar.CreateSidebar | src/sidebar.rs:6-82 | runs the loader, shows the heading and the listed names, empties the dropped-files list whenever a window exists, and draws frame, label and Clear button from the slot (the same heading and clearing rule as src/app.rs:210-227) |
| ClipboardSession.RunSlotIsLastWrite | src/image_window.rs:108-148 | after any run of copies, pastes and clears that does not panic, the slot holds what the last effective copy, paste or clear put there, else the initial occupant |
| ClipboardSession.RunToasts | src/image_window.rs:117-124 | the toast log only grows: each operation appends its own toasts, in order, independently of the slot |
| ClipboardSession.RunPanicsIff | src/image_window.rs:129 | a run panics exactly when some paste meets an empty slot |
| ClipboardSession.CopiesOverwrite | src/image_window.rs:108-126 | any sequence of copies never panics and leaves the slot holding the name and chunk of the last copied record that had a chunk |

## Left out

- The zTXt chunk and the DMI codec (`dmi::RawDmi::load`): the chunk is an opaque type, and the loader's result is a parameter (absent on failure, else the optional chunk). The chunk's `{:#?}` debug text is a parameter too.
- PNG decoding, resizing and re-encoding of the preview, and the retained texture (src/app.rs:133-159): decoding is a yes/no parameter, and a window only records that its preview exists.
- Reading a native path (src/app.rs:105-110) is a parameter returning the bytes or nothing; the platform's path parsing (`Path::file_name`, `Path::display`, lossy conversion) is carried by the path value itself.
- The text of the decode error label (src/app.rs:139-142) is not modelled; the loader reports the index of the file that stopped the pass.
- The window identifier (`uuid::Uuid::new_v4`) is random and is left out; windows are told apart by position.
- The mutex and the lazily initialised global: the slot is a field of the one application object and everything runs on one thread.
- ImageWindow.PasteMetadata: models `paste_metadata` called while the slot is unlocked. Its only call site does not do that: the lock taken at src/image_window.rs:52 to decide whether Paste is enabled is a temporary of that statement, so it is still held when the click handler calls `paste_metadata`, which locks the same non-re-entrant mutex again at line 129. A click on the enabled Paste button therefore blocks (or panics under lock checking) before anything changes; the model, like ImageWindow.PasteEnabledIffNoPanic, does not capture this lock re-entry.
- Paste writes no file, so no file writing is modelled; the Download button's handler at src/image_window.rs:66-75 is empty.
- `update` (src/app.rs:238-284): window drawing, taking the dropped files from the frame input, the menu, and toast rendering and expiry are presentation; the toast list is modelled as an append-only log.
- egui layout, fonts, `configure_text_styles`, colours other than the green/red choices, and src/dmi_window.rs, an older snapshot of the window widgets.
- Windows are never closed or removed in this code, so there is no eviction sweep to model.
