/**
 * The per-file metadata record (src/metadata.rs): the zTXt chunk a sprite
 * sheet carries, if any, and the display name derived from how the file
 * reached the application.
 */
module Metadata {
  import opened Wrappers

  /** The zTXt chunk decoded by the dmi crate. Its content is never inspected. */
  type Chunk(==, !new)

  newtype byte = b: int | 0 <= b < 256

  /**
   * A native file path as the platform hands it over: the text that
   * `Path::display` shows and the final component that `Path::file_name`
   * extracts (absent for a root or a path ending in `..`).
   */
  datatype OsPath = OsPath(display: string, fileName: Option<string>)

  /**
   * A file dropped on the window. Native builds give a path; web builds give
   * an upload name and the bytes themselves.
   */
  datatype DroppedFile = DroppedFile(
    path: Option<OsPath>,
    name: string,
    mime: string,
    bytes: Option<seq<byte>>)

  /** One loaded file: its metadata chunk (absence is a valid state) and its name. */
  datatype ImageMetadata = ImageMetadata(chunk: Option<Chunk>, fileName: string)

  /** The name shown when neither a path nor an upload name yields one. */
  const Placeholder := "???"

  /** Name derivation: the path wins; its file name, else the placeholder; without a path, the upload name if any. */
  function DisplayName(file: DroppedFile): string
  {
    match file.path
    case Some(p) =>
      (match p.fileName
       case Some(n) => n
       case None => Placeholder)
    case None =>
      if file.name != "" then file.name else Placeholder
  }

  /** `ImageMetadata::new`: keeps the chunk as given and derives the name. */
  function New(ztxt: Option<Chunk>, file: DroppedFile): (m: ImageMetadata)
    ensures m.chunk == ztxt
    ensures m.fileName == DisplayName(file)
  {
    ImageMetadata(ztxt, DisplayName(file))
  }

  /** The four cases of the name derivation. */
  lemma DisplayNameCases(file: DroppedFile)
    ensures file.path.Some? && file.path.value.fileName.Some? ==>
              DisplayName(file) == file.path.value.fileName.value
    ensures file.path.Some? && file.path.value.fileName.None? ==> DisplayName(file) == "???"
    ensures file.path.None? && file.name != "" ==> DisplayName(file) == file.name
    ensures file.path.None? && file.name == "" ==> DisplayName(file) == "???"
  {
  }

  /**
   * A path always decides the name: two files with the same path get the same
   * name whatever their upload names, and a path without a file name gives the
   * placeholder even when an upload name exists.
   */
  lemma PathTakesPriority(a: DroppedFile, b: DroppedFile)
    requires a.path.Some? && a.path == b.path
    ensures DisplayName(a) == DisplayName(b)
  {
  }

  /** A non-empty platform file name, or any upload name, never yields an empty display name. */
  lemma DisplayNameNonEmpty(file: DroppedFile)
    requires file.path.Some? && file.path.value.fileName.Some? ==> file.path.value.fileName.value != ""
    ensures DisplayName(file) != ""
  {
  }

  /** What `Display` prints in place of a chunk when there is none. */
  const NoMetadata := "No metadata"

  /** `Display for ImageMetadata`: a heading line with the name, then the chunk's debug text or "No metadata". */
  function Format(m: ImageMetadata, debug: Chunk -> string): string
  {
    "# " + m.fileName + "\n" + (match m.chunk case Some(c) => debug(c) case None => NoMetadata)
  }

  /** The output splits into the heading "# <name>\n" and the body after it. */
  lemma FormatLayout(m: ImageMetadata, debug: Chunk -> string)
    ensures |Format(m, debug)| >= |m.fileName| + 3
    ensures Format(m, debug)[..|m.fileName| + 3] == "# " + m.fileName + "\n"
    ensures m.chunk.None? ==> Format(m, debug)[|m.fileName| + 3..] == "No metadata"
    ensures m.chunk.Some? ==> Format(m, debug)[|m.fileName| + 3..] == debug(m.chunk.value)
  {
  }

  /**
   * Provided the chunk's debug text is never literally "No metadata" (Rust's
   * pretty debug form starts with the struct name), the body after the heading
   * is "No metadata" exactly when the record has no chunk.
   */
  lemma FormatSaysNoMetadataIff(m: ImageMetadata, debug: Chunk -> string)
    requires forall c :: debug(c) != NoMetadata
    ensures Format(m, debug)[|m.fileName| + 3..] == "No metadata" <==> m.chunk.None?
  {
  }
}
