/** `ValidateFile` of the uploaded-file record that carries a purpose: the
    required fields in order, then the purpose against its four constants. An
    error is the text it carries; `None` is `nil`. */
module ModelFiles {
  import opened Util

  const FilePurposeRestaurantImage: string := "restaurant_image"
  const FilePurposeMenuImage: string := "menu_image"
  const FilePurposeMenuItemImage: string := "menu_item_image"
  const FilePurposeReviewPhoto: string := "review_photo"

  /** The fields of a file record that the validator reads. */
  datatype File = File(uploaderId: string, storagePath: string, originalFilename: string,
                       mimeType: string, fileSize: int, purpose: string)

  const Purposes: set<string> :=
    {FilePurposeRestaurantImage, FilePurposeMenuImage, FilePurposeMenuItemImage, FilePurposeReviewPhoto}

  /** A file that can be stored: every text field given, a positive size and
      one of the four purposes. */
  predicate Complete(file: File) {
    file.uploaderId != "" && file.storagePath != "" && file.originalFilename != ""
    && file.mimeType != "" && file.fileSize > 0 && file.purpose in Purposes
  }

  function ValidateFile(file: File): (err: Option<string>)
    ensures err.None? <==> Complete(file)
    ensures file.uploaderId == "" ==> err == Some("uploader_id is required")
    ensures err == Some("invalid purpose") <==>
      file.uploaderId != "" && file.storagePath != "" && file.originalFilename != ""
      && file.mimeType != "" && file.fileSize > 0 && file.purpose != "" && file.purpose !in Purposes
  {
    if file.uploaderId == "" then Some("uploader_id is required")
    else if file.storagePath == "" then Some("storage_path is required")
    else if file.originalFilename == "" then Some("original_filename is required")
    else if file.mimeType == "" then Some("mime_type is required")
    else if file.fileSize <= 0 then Some("file_size must be greater than 0")
    else if file.purpose == "" then Some("purpose is required")
    else if file.purpose != FilePurposeRestaurantImage && file.purpose != FilePurposeMenuImage
            && file.purpose != FilePurposeMenuItemImage && file.purpose != FilePurposeReviewPhoto
    then Some("invalid purpose")
    else None
  }
}
