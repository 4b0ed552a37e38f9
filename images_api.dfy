/**
 * `/api/images` (src/app/api/images/route.ts): `GET` lists the caller's image
 * documents newest first, `POST` stores an image and inserts its document.
 * Unlike the files routes these only ask for a signed-in user, so the email
 * used as owner may be absent; an absent email matches (and is stored as)
 * a missing `userId`.
 */
module ImagesApi {
  import opened Wrappers
  import opened Records
  import opened Collections

  datatype ImagesReply = ImagesUnauthorized | Images(images: seq<ImageRecord>)

  datatype ImageUploadReply = ImageUnauthorized | NoImage | ImageFailed | ImageUploaded(imageId: ObjectId)

  /** The HTTP status of a `POST /api/images` answer. */
  function ImageUploadStatus(r: ImageUploadReply): (s: int)
    ensures s == 401 <==> r.ImageUnauthorized?
    ensures s == 400 <==> r.NoImage?
    ensures s == 500 <==> r.ImageFailed?
    ensures s == 201 <==> r.ImageUploaded?
  {
    match r
    case ImageUnauthorized => 401
    case NoImage => 400
    case ImageFailed => 500
    case ImageUploaded(_) => 201
  }

  /** `find({ userId: session.user.email })` in store order. */
  function ImagesOf(store: seq<ImageRecord>, email: Option<string>): (r: seq<ImageRecord>)
    ensures forall x :: x in r ==> x.userId == email && x in store
    ensures forall x :: x in store && x.userId == email ==> x in r
    ensures forall x :: multiset(r)[x] == if x.userId == email then multiset(store)[x] else 0
  {
    var owned := Filter(store, (x: ImageRecord) => x.userId == email);
    forall x ensures multiset(owned)[x] == if x.userId == email then multiset(store)[x] else 0 {
      FilterMultiplicity(store, (x: ImageRecord) => x.userId == email, x);
    }
    forall x | x in owned || x in store ensures x in owned <==> x in store && x.userId == email {
      FilterMembership(store, (x: ImageRecord) => x.userId == email, x);
    }
    owned
  }

  /** `GET /api/images`: every image of the caller, each as often as stored, newest first. */
  function ListImages(store: seq<ImageRecord>, session: Session): (r: ImagesReply)
    ensures r.ImagesUnauthorized? <==> session.NoSession?
    ensures r.Images? ==> multiset(r.images) == multiset(ImagesOf(store, session.email))
    ensures r.Images? ==> forall x :: x in r.images <==> x in store && x.userId == session.email
    ensures r.Images? ==> NewestFirstOrder(r.images, ImageTime)
  {
    match session
    case NoSession => ImagesUnauthorized
    case Session(email) =>
      var listed := NewestFirst(ImagesOf(store, email), ImageTime);
      assert forall x :: x in listed <==> x in multiset(ImagesOf(store, email));
      Images(listed)
  }

  /** The public URL under which an image is served. */
  function ImagePath(name: string): (p: string)
    ensures |p| == |name| + 9 && p[..9] == "/uploads/" && p[9..] == name
  {
    "/uploads/" + name
  }

  /** The `images` collection; `nextId` is the next `_id` the store allocates. */
  class ImageCollection {
    var records: seq<ImageRecord>
    var nextId: ObjectId

    /** Every stored `_id` was allocated before `nextId`, so a new one is fresh. */
    ghost predicate Valid()
      reads this
    {
      forall x :: x in records ==> x.id < nextId
    }

    constructor ()
      ensures Valid()
      ensures records == [] && nextId == 0
    {
      records, nextId := [], 0;
    }

    /**
     * `POST /api/images` at time `now` for an upload called `file`. The new
     * document is appended, so an existing document with the same name stays.
     */
    method Store(session: Session, file: Option<string>, outcome: StoreOutcome, now: int)
      returns (r: ImageUploadReply)
      requires Valid()
      modifies this
      ensures Valid()
      ensures r.ImageUploaded? ==> forall x :: x in old(records) ==> x.id != r.imageId
      ensures r == ImageUnauthorized <==> session.NoSession?
      ensures r == NoImage <==> session.Session? && file.None?
      ensures r == ImageFailed <==> session.Session? && file.Some? && outcome != Stored
      ensures r.ImageUploaded? ==> r.imageId == old(nextId) && nextId == old(nextId) + 1
      ensures r.ImageUploaded? ==>
                records == old(records) + [ImageRecord(old(nextId), session.email, file.value, ImagePath(file.value), now)]
      ensures !r.ImageUploaded? ==> records == old(records) && nextId == old(nextId)
    {
      if session.NoSession? {
        return ImageUnauthorized;
      }
      if file.None? {
        return NoImage;
      }
      if outcome != Stored {
        return ImageFailed;
      }
      records := records + [ImageRecord(nextId, session.email, file.value, ImagePath(file.value), now)];
      r := ImageUploaded(nextId);
      nextId := nextId + 1;
    }
  }
}
