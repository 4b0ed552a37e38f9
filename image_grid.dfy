/**
 * The state of the image gallery (src/components/image-grid.tsx): the
 * caller's images, the image open in the viewer and the name being typed for
 * it. The `PATCH` and `DELETE` routes it calls are not part of this model;
 * their answers are parameters.
 */
module ImageGrid {
  import opened Wrappers
  import opened JsStrings
  import opened Records
  import opened Collections
  import opened ImagesApi

  /** The answer of `PATCH /api/images/{id}`: the renamed document when it succeeded. */
  datatype RenameReply = RenameRejected | Renamed(image: ImageRecord)

  /**
   * The name `handleRename` sends: the typed name with the extension of the
   * open image; with no image open, `undefined` takes the extension's place.
   */
  function RenameTarget(selected: Option<ImageRecord>, newFileName: string): (r: string)
    ensures selected.Some? ==> Stem(r, '.') == newFileName
    ensures selected.Some? ==> LastSegment(r, '.') == LastSegment(selected.value.filename, '.')
    ensures selected.None? ==> r == newFileName + ".undefined"
  {
    match selected
    case Some(image) => KeepExtension(newFileName, image.filename)
    case None => newFileName + ".undefined"
  }

  /** Renaming right after opening the viewer, without typing, asks for the name the image already has. */
  lemma UntouchedRenameKeepsName(image: ImageRecord)
    requires '.' in image.filename
    ensures RenameTarget(Some(image), Stem(image.filename, '.')) == image.filename
  {
  }

  /** A name without a `.` has an empty stem, so the untouched rename asks for `.` followed by the name. */
  lemma UndottedNameGainsDot(image: ImageRecord)
    requires '.' !in image.filename
    ensures RenameTarget(Some(image), Stem(image.filename, '.')) == "." + image.filename
  {
    SplitWithoutSeparator(image.filename, '.');
  }

  class ImageGridView {
    var images: seq<ImageRecord>
    var selected: Option<ImageRecord>
    var newFileName: string

    constructor ()
      ensures images == [] && selected == None && newFileName == ""
    {
      images, selected, newFileName := [], None, "";
    }

    /** `fetchImages`: the list is replaced only by a listing; any other answer leaves it alone. */
    method FetchImages(store: seq<ImageRecord>, session: Session)
      modifies this
      ensures ListImages(store, session).Images? ==> images == ListImages(store, session).images
      ensures ListImages(store, session).ImagesUnauthorized? ==> images == old(images)
      ensures selected == old(selected) && newFileName == old(newFileName)
    {
      var reply := ListImages(store, session);
      if reply.Images? {
        images := reply.images;
      }
    }

    /** The View button: opens `image` with its name up to the last `.` ready for editing. */
    method OpenViewer(image: ImageRecord)
      modifies this
      ensures selected == Some(image) && newFileName == Stem(image.filename, '.')
      ensures images == old(images)
    {
      selected := Some(image);
      newFileName := Stem(image.filename, '.');
    }

    /** Typing in the new-name input. */
    method EditName(text: string)
      modifies this
      ensures newFileName == text
      ensures images == old(images) && selected == old(selected)
    {
      newFileName := text;
    }

    /**
     * `handleRename(id)`: `requested` is the name sent; a successful answer
     * replaces every image with that id by the returned document and opens it.
     */
    method HandleRename(id: ObjectId, reply: RenameReply) returns (requested: string)
      modifies this
      ensures requested == RenameTarget(old(selected), old(newFileName))
      ensures reply.Renamed? ==> images == ReplaceWhere(old(images), ImageId, id, reply.image) && selected == Some(reply.image)
      ensures reply.RenameRejected? ==> images == old(images) && selected == old(selected)
      ensures newFileName == old(newFileName)
    {
      requested := RenameTarget(selected, newFileName);
      if reply.Renamed? {
        images := ReplaceWhere(images, ImageId, id, reply.image);
        selected := Some(reply.image);
      }
    }

    /** `handleDelete(id)`: on success the images with that id go and the viewer closes. */
    method HandleDelete(id: ObjectId, ok: bool)
      modifies this
      ensures ok ==> images == RemoveWhere(old(images), ImageId, id) && selected == None
      ensures !ok ==> images == old(images) && selected == old(selected)
      ensures newFileName == old(newFileName)
    {
      if ok {
        images := RemoveWhere(images, ImageId, id);
        selected := None;
      }
    }
  }
}
