/**
 * The image upload form (src/components/image-upload.tsx): the chosen file
 * and the name it will be uploaded under. The name is edited without its
 * extension, which the form keeps.
 */
module ImageUpload {
  import opened Wrappers
  import opened JsStrings

  /**
   * The name after typing each of `edits` in turn into the name input:
   * however often it is edited, the extension stays that of the chosen file,
   * and after at least one edit the input shows the last name typed.
   */
  function AfterEdits(fileName: string, edits: seq<string>): (r: string)
    ensures LastSegment(r, '.') == LastSegment(fileName, '.')
    ensures |edits| > 0 ==> Stem(r, '.') == edits[|edits| - 1]
    decreases |edits|
  {
    if |edits| == 0 then fileName
    else
      assert |edits| > 1 ==> edits[1..][|edits[1..]| - 1] == edits[|edits| - 1];
      AfterEdits(KeepExtension(edits[0], fileName), edits[1..])
  }

  class ImageUploadForm {
    /** The chosen file, by its own name. */
    var file: Option<string>
    var fileName: string

    constructor ()
      ensures file == None && fileName == ""
    {
      file, fileName := None, "";
    }

    /** `handleFileChange`: the first of the chosen files, if any, becomes the file and names the upload. */
    method SelectFile(chosen: seq<string>)
      modifies this
      ensures |chosen| > 0 ==> file == Some(chosen[0]) && fileName == chosen[0]
      ensures |chosen| == 0 ==> file == old(file) && fileName == old(fileName)
    {
      if |chosen| > 0 {
        file, fileName := Some(chosen[0]), chosen[0];
      }
    }

    /** The value of the name input: everything before the last `.`. */
    function DisplayedStem(): (r: string)
      reads this
      ensures '.' in fileName ==> r + "." + LastSegment(fileName, '.') == fileName
    {
      Stem(fileName, '.')
    }

    /** `handleFileNameChange`: the typed name takes the stem's place, the extension is kept. */
    method ChangeName(newName: string)
      modifies this
      ensures fileName == KeepExtension(newName, old(fileName))
      ensures DisplayedStem() == newName && LastSegment(fileName, '.') == LastSegment(old(fileName), '.')
      ensures file == old(file)
    {
      fileName := KeepExtension(newName, fileName);
    }

    /**
     * `handleSubmit`: without a file nothing happens; otherwise the file is
     * sent under `fileName` (`sent`), and a successful upload clears the form.
     */
    method Submit(ok: bool) returns (sent: Option<string>)
      modifies this
      ensures old(file).None? ==> sent == None && file == old(file) && fileName == old(fileName)
      ensures old(file).Some? ==> sent == Some(old(fileName))
      ensures old(file).Some? && ok ==> file == None && fileName == ""
      ensures old(file).Some? && !ok ==> file == old(file) && fileName == old(fileName)
    {
      if file.None? {
        return None;
      }
      sent := Some(fileName);
      if ok {
        file, fileName := None, "";
      }
    }
  }
}
