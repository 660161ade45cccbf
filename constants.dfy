/** The fixed values the pages use (frontend/src/utils/constants.js). */
module Constants {

  /** FILE_UPLOAD.MAX_SIZE: 7 MiB. */
  const MaxUploadSize: nat := 7 * 1024 * 1024

  /** FILE_UPLOAD.ALLOWED_TYPES, in their declared order. */
  const AllowedTypes: seq<string> := ["application/zip", "application/x-zip-compressed"]

  const FileTooLarge: string := "File size exceeds 7MB limit"
  const InvalidFileType: string := "Only .zip files are allowed"
  const UploadFailed: string := "Failed to upload file. Please try again."
  const GithubInvalid: string := "Invalid GitHub URL format"
  const NetworkError: string := "Network error. Please check your connection."
  const ServerError: string := "Server error. Please try again later."
}
