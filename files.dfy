/** A file picked in a browser form: its name, MIME type and size in bytes. */
module Files {
  datatype FileInfo = FileInfo(name: string, mime: string, size: nat)

  /** The image types every upload path accepts: JPEG, PNG and WebP. */
  const IMAGE_TYPES: seq<string> := ["image/jpeg", "image/png", "image/webp"]

  const MB: nat := 1024 * 1024
}
