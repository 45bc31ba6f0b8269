/** The file upload action: presence, size and type checks in that order,
    then a simulated upload that fails at random (a parameter here). */
module FileUploadForm {
  import opened Js

  /** The fields of the submitted `File` the action reads. */
  datatype FileInfo = FileInfo(name: string, size: nat, mimeType: string)

  datatype FileUploadState = FileUploadState(
    success: bool, error: Option<string>, fileName: Option<string>,
    fileSize: Option<nat>, uploadProgress: Option<nat>)

  const InitialState := FileUploadState(false, None, None, None, None)

  /** 5 MB. */
  const MaxFileSize: nat := 5 * 1024 * 1024

  const AllowedTypes: seq<string> := ["image/jpeg", "image/png", "image/gif", "application/pdf", "text/plain"]

  const ChooseFile := "Proszę wybrać plik do przesłania"
  const TooLarge := "Plik jest za duży. Maksymalny rozmiar to 5MB."
  const UnsupportedType := "Nieobsługiwany typ pliku. Dozwolone: JPG, PNG, GIF, PDF, TXT"
  const UploadFailed := "Wystąpił błąd podczas przesyłania pliku. Spróbuj ponownie."

  function Failed(message: string): FileUploadState {
    FileUploadState(false, Some(message), None, None, None)
  }

  /** `fileUploadAction`; `file` is `formData.get('file')` and `uploadFails`
      stands for `Math.random() < 0.2`. The previous state is not read. */
  function FileUploadAction(prev: FileUploadState, file: Option<FileInfo>, uploadFails: bool): (r: FileUploadState)
    ensures r.success <==> r.error.None?
    ensures r.error.Some? ==> r.error.value in {ChooseFile, TooLarge, UnsupportedType, UploadFailed}
    ensures r.success ==> file.Some? && r.fileName == Some(file.value.name) && r.fileSize == Some(file.value.size)
    ensures r.success ==> 0 < file.value.size <= 5242880 && r.uploadProgress == Some(100)
  {
    if file.None? || file.value.size == 0 then Failed(ChooseFile)
    else if file.value.size > MaxFileSize then Failed(TooLarge)
    else if file.value.mimeType !in AllowedTypes then Failed(UnsupportedType)
    else if uploadFails then Failed(UploadFailed)
    else FileUploadState(true, None, Some(file.value.name), Some(file.value.size), Some(100))
  }

  /** A non-empty file within the size limit. */
  predicate SizeOk(file: Option<FileInfo>) {
    file.Some? && 0 < file.value.size <= MaxFileSize
  }

  /** The checks run in order and the first that fails decides the error:
      no file or an empty one, then a size above 5242880 bytes, then a type
      outside the five allowed, then the upload itself. */
  lemma ErrorOrder(prev: FileUploadState, file: Option<FileInfo>, uploadFails: bool)
    ensures var r := FileUploadAction(prev, file, uploadFails);
            && (file.None? || file.value.size == 0 <==> r == Failed(ChooseFile))
            && (file.Some? && 0 < file.value.size && file.value.size > MaxFileSize <==> r == Failed(TooLarge))
            && (SizeOk(file) && file.value.mimeType !in AllowedTypes <==> r == Failed(UnsupportedType))
            && (SizeOk(file) && file.value.mimeType in AllowedTypes && uploadFails <==> r == Failed(UploadFailed))
  {
  }

  /** A file of exactly 5242880 bytes passes the size check; one byte more
      does not. */
  lemma SizeBoundary(prev: FileUploadState, name: string, mimeType: string, uploadFails: bool)
    ensures FileUploadAction(prev, Some(FileInfo(name, MaxFileSize, mimeType)), uploadFails).error != Some(TooLarge)
    ensures FileUploadAction(prev, Some(FileInfo(name, MaxFileSize + 1, mimeType)), uploadFails) == Failed(TooLarge)
    ensures MaxFileSize == 5242880
  {
  }

  /** A successful upload reports the file's own name and size and full
      progress, and only happens for a non-empty file within the limit with
      an allowed type and no upload failure. */
  lemma SuccessSpec(prev: FileUploadState, file: Option<FileInfo>, uploadFails: bool)
    ensures var r := FileUploadAction(prev, file, uploadFails);
            r.success <==> SizeOk(file) && file.value.mimeType in AllowedTypes && !uploadFails
    ensures var r := FileUploadAction(prev, file, uploadFails);
            r.success ==> r.error.None? && r.fileName == Some(file.value.name) &&
                          r.fileSize == Some(file.value.size) && r.uploadProgress == Some(100)
    ensures var r := FileUploadAction(prev, file, uploadFails);
            !r.success ==> r.error.Some? && r.fileName.None? && r.fileSize.None? && r.uploadProgress.None?
  {
  }

  /** The previous state never matters. */
  lemma IgnoresPrevious(p1: FileUploadState, p2: FileUploadState, file: Option<FileInfo>, uploadFails: bool)
    ensures FileUploadAction(p1, file, uploadFails) == FileUploadAction(p2, file, uploadFails)
  {
  }
}
