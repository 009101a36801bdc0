/** The upload settings the image flow checks against. */
module Config {

  /** `MAX_FILE_SIZE`: ten mebibytes. */
  const MaxFileSize: nat := 10 * 1024 * 1024

  /** `ALLOWED_IMAGE_TYPES`, in the order the error message lists them. */
  const AllowedImageTypes: seq<string> := ["image/jpeg", "image/png", "image/webp"]

  /** `", ".join(ALLOWED_IMAGE_TYPES)`. */
  function JoinTypes(types: seq<string>): string {
    if |types| == 0 then ""
    else if |types| == 1 then types[0]
    else types[0] + ", " + JoinTypes(types[1..])
  }
}
