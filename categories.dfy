/**
 * The cleaner's fixed tables: which extensions make up each category, and
 * which names and extensions are never touched.
 */
module Categories {
  import opened Wrappers
  import opened Text

  datatype Category = Images | Videos | Documents | Music

  /** The lowercase extensions (with the leading dot) of each category. */
  function Extensions(c: Category): set<string> {
    match c
    case Images => {".jpg", ".jpeg", ".png", ".gif", ".bmp", ".tiff", ".webp", ".svg", ".heic"}
    case Videos => {".mp4", ".mov", ".avi", ".mkv", ".flv", ".wmv", ".webm", ".m4v"}
    case Documents => {".pdf", ".doc", ".docx", ".txt", ".xls", ".xlsx", ".ppt", ".pptx", ".csv", ".rtf", ".odt"}
    case Music => {".mp3", ".wav", ".flac", ".aac", ".ogg", ".m4a", ".wma"}
  }

  const IgnoredFiles: set<string> := {"desktop.ini", "thumbs.db", ".ds_store", ".localized"}
  const IgnoredExtensions: set<string> := {".tmp", ".crdownload", ".part", ".ini", ".db"}

  /** No extension belongs to two categories. */
  lemma ExtensionTableDisjoint(a: Category, b: Category)
    requires a != b
    ensures Extensions(a) !! Extensions(b)
  {
    match (a, b)
    case (Images, Videos) | (Videos, Images) => ImagesVideosDisjoint();
    case (Images, Documents) | (Documents, Images) => ImagesDocumentsDisjoint();
    case (Images, Music) | (Music, Images) => ImagesMusicDisjoint();
    case (Videos, Documents) | (Documents, Videos) => VideosDocumentsDisjoint();
    case (Videos, Music) | (Music, Videos) => VideosMusicDisjoint();
    case (Documents, Music) | (Music, Documents) => DocumentsMusicDisjoint();
    case _ =>
  }

  // One pair of sets per lemma keeps each proof small.
  lemma ImagesVideosDisjoint() ensures Extensions(Images) !! Extensions(Videos) {}
  lemma ImagesDocumentsDisjoint() ensures Extensions(Images) !! Extensions(Documents) {}
  lemma ImagesMusicDisjoint() ensures Extensions(Images) !! Extensions(Music) {}
  lemma VideosDocumentsDisjoint() ensures Extensions(Videos) !! Extensions(Documents) {}
  lemma VideosMusicDisjoint() ensures Extensions(Videos) !! Extensions(Music) {}
  lemma DocumentsMusicDisjoint() ensures Extensions(Documents) !! Extensions(Music) {}

  /**
   * The first category, in table order, whose set holds the lowercased
   * extension; since the sets are disjoint it is the only one.
   */
  function GetCategory(extension: string): (r: Option<Category>)
    ensures forall c :: r == Some(c) <==> Lower(extension) in Extensions(c)
  {
    var ext := Lower(extension);
    ImagesVideosDisjoint();
    ImagesDocumentsDisjoint();
    ImagesMusicDisjoint();
    VideosDocumentsDisjoint();
    VideosMusicDisjoint();
    DocumentsMusicDisjoint();
    if ext in Extensions(Images) then Some(Images)
    else if ext in Extensions(Videos) then Some(Videos)
    else if ext in Extensions(Documents) then Some(Documents)
    else if ext in Extensions(Music) then Some(Music)
    else None
  }

  /**
   * A file the organizer skips: a system file by lowercase name, a hidden
   * file, or a temporary or system extension.
   */
  predicate IsIgnored(filename: string) {
    || Lower(filename) in IgnoredFiles
    || StartsWith(filename, ".")
    || Lower(SplitExt(filename).1) in IgnoredExtensions
  }
}
