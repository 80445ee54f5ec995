/** The closed extension sets and the image/video/text/other classification of a file. */
module MediaTypes {
  import opened Paths

  /** Image extensions of the scanner and of the thumbnail generator (they keep identical copies). */
  const IMAGE_EXT: set<string> := {".jpg", ".jpeg", ".jpe", ".png", ".bmp", ".gif", ".tiff"}
  const VIDEO_EXT: set<string> := {".mp4", ".avi", ".mov", ".mkv"}
  const TEXT_EXT: set<string> := {".txt", ".md", ".log"}

  /** The earlier scanner draft's image extensions: ".jpe" is missing. */
  const DRAFT_IMAGE_EXT: set<string> := {".jpg", ".jpeg", ".png", ".bmp", ".gif", ".tiff"}

  datatype FileType = Image | Video | Text | Other

  /** The text stored in the `file_type` column. */
  function TypeName(t: FileType): string
  {
    match t
    case Image => "image"
    case Video => "video"
    case Text => "text"
    case Other => "other"
  }

  /** The if/elif chain of `_process_file`: image first, then video, then text, else other. */
  function Classify(ext: string, imageExt: set<string>): FileType
  {
    if ext in imageExt then Image
    else if ext in VIDEO_EXT then Video
    else if ext in TEXT_EXT then Text
    else Other
  }

  /** A lowercased extension that makes a file a thumbnail candidate. */
  predicate IsMediaExt(ext: string)
  {
    ext in IMAGE_EXT || ext in VIDEO_EXT
  }

  /** One leading dot, at least one more character, and no other dot. */
  predicate Dotted(ext: string)
  {
    |ext| >= 2 && ext[0] == '.' && '.' !in ext[1..]
  }

  lemma MediaExtensionsDotted(ext: string)
    requires IsMediaExt(ext)
    ensures Dotted(ext)
  {
  }

  lemma DraftOmitsOnlyJpe()
    ensures DRAFT_IMAGE_EXT == IMAGE_EXT - {".jpe"}
  {
  }

  /**
   * Every name the scanner treats as media has the same lowercased extension for
   * `PurePath.suffix`, so the thumbnail generator accepts every scanner candidate.
   */
  lemma MediaNameSuffix(name: string)
    requires IsMediaExt(ExtOf(name))
    ensures Lower(Suffix(name)) == ExtOf(name)
  {
    assert |SplitExt(name).1| == |ExtOf(name)|;
    SplitExtAgreesWithSuffix(name);
  }
}
