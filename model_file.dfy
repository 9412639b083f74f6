/** `ValidateFile` of the file record with a name, a path and a type: the
    required fields in order. An error is the text it carries; `None` is
    `nil`. */
module ModelFile {
  import opened Util

  /** The fields of a file record that the validator reads. */
  datatype File = File(filename: string, filePath: string, fileType: string, fileSize: int, mimeType: string)

  /** A file that can be stored: a name, a path, a type, a positive size and a
      mime type. */
  predicate Complete(file: File) {
    file.filename != "" && file.filePath != "" && file.fileType != "" && file.fileSize > 0 && file.mimeType != ""
  }

  /** The checks in their order; the size is checked before the mime type. */
  function ValidateFile(file: File): (err: Option<string>)
    ensures err.None? <==> Complete(file)
    ensures file.filename == "" ==> err == Some("filename is required")
    ensures err == Some("file size must be greater than 0") <==>
      file.filename != "" && file.filePath != "" && file.fileType != "" && file.fileSize <= 0
    ensures err == Some("mime type is required") <==>
      file.filename != "" && file.filePath != "" && file.fileType != "" && file.fileSize > 0 && file.mimeType == ""
  {
    if file.filename == "" then Some("filename is required")
    else if file.filePath == "" then Some("file path is required")
    else if file.fileType == "" then Some("file type is required")
    else if file.fileSize <= 0 then Some("file size must be greater than 0")
    else if file.mimeType == "" then Some("mime type is required")
    else None
  }
}
