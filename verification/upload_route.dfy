/** `POST /api/upload` (`src/app/api/upload/route.ts`): checks the form and
    the user, enforces the tier size limit, writes the bytes under the user's
    directory and inserts one file record. The generated id's random bytes,
    the application URL, the new record's id and the time are inputs. */
module UploadRoute {
  import opened Base
  import opened Schema
  import FileIds
  import ServerUtils
  import Strings
  import FileUploader

  /** A file field of the multipart form. */
  datatype FormFile = FormFile(name: string, mimeType: string, data: seq<byte>)

  /** The two form fields the route reads; `None` when a field is absent. */
  datatype UploadForm = UploadForm(file: Option<FormFile>, userId: Option<string>)

  /** The upload directory tree, keyed by path relative to the working directory. */
  class Disk {
    var blobs: map<string, seq<byte>>

    constructor ()
      ensures blobs == map[]
    {
      blobs := map[];
    }
  }

  /** `user.subscription?.status === "active"`: the admin flag plays no part. */
  predicate UploadIsPro(subs: seq<Subscription>, userId: string)
    ensures UploadIsPro(subs, userId) ==> HasActiveSubscription(subs, userId)
  {
    var s := SubscriptionOf(subs, userId);
    s.Some? && IsActive(s.value)
  }

  /** `maxSize` (route.ts:40). */
  function MaxSize(isPro: bool): (limit: nat)
    ensures limit == if isPro then 2 * 1024 * 1024 * 1024 else 100 * 1024 * 1024
  {
    if isPro then 2 * 1024 * 1024 * 1024 else 100 * 1024 * 1024
  }

  /** The server enforces the same limit as the client's drop zone. */
  lemma ServerLimitIsClientLimit(isPro: bool)
    ensures MaxSize(isPro) == FileUploader.MaxSize(isPro)
  {
  }

  /** `${fileId}${extension}` (route.ts:49-57). */
  function StoredFilename(random: seq<byte>, originalName: string): (name: string)
    requires |random| == 4
    ensures |name| >= 8 && name[..8] == FileIds.GenerateFileId(random)
    // the client's name cannot add a directory to the stored path
    ensures '/' !in name
  {
    FileIdHasNoSeparators(random);
    FileIds.GenerateFileId(random) + ServerUtils.GetFileExtension(originalName)
  }

  /** A generated id contains neither a dot nor a slash. */
  lemma FileIdHasNoSeparators(random: seq<byte>)
    requires |random| == 4
    ensures '.' !in FileIds.GenerateFileId(random) && '/' !in FileIds.GenerateFileId(random)
    ensures |FileIds.GenerateFileId(random)| == 8
  {
    var id := FileIds.GenerateFileId(random);
    assert forall i :: 0 <= i < |id| ==> id[i] in FileIds.HexDigits;
  }

  /** The stored name has the same extension as the original (lowercased). */
  lemma StoredFilenameKeepsExtension(random: seq<byte>, originalName: string)
    requires |random| == 4
    ensures ServerUtils.GetFileExtension(StoredFilename(random, originalName))
         == ServerUtils.GetFileExtension(originalName)
  {
    var id := FileIds.GenerateFileId(random);
    var ext := ServerUtils.GetFileExtension(originalName);
    FileIdHasNoSeparators(random);
    if ext == "" {
      assert id + ext == id;
      ServerUtils.NoDotNoExtension(id);
    } else {
      KeepsNonEmptyExtension(id, ext);
    }
  }

  lemma KeepsNonEmptyExtension(id: string, ext: string)
    requires '.' !in id && '/' !in id && |id| == 8
    requires ext != [] && ext[0] == '.' && Strings.IsLowercase(ext) && '/' !in ext
    requires forall i :: 1 <= i < |ext| ==> ext[i] != '.'
    ensures ServerUtils.GetFileExtension(id + ext) == ext
  {
    var tail := ext[1..];
    assert ext == "." + tail;
    assert '.' !in tail by {
      forall i | 0 <= i < |tail| ensures tail[i] != '.' { assert tail[i] == ext[i + 1]; }
    }
    assert '/' !in tail by {
      forall i | 0 <= i < |tail| ensures tail[i] != '/' { assert tail[i] == ext[i + 1]; }
    }
    assert Strings.IsLowercase(tail) by {
      forall i | 0 <= i < |tail| ensures !Strings.IsUpper(tail[i]) { assert tail[i] == ext[i + 1]; }
    }
    assert |id + "." + tail| >= 9;
    assert id + ext == id + "." + tail;
    ServerUtils.ExtensionIsLastDotSuffix(id, tail);
    Strings.ToLowerOfLowercase(tail);
  }

  /** Different random bytes give different stored names. */
  lemma StoredFilenamesDiffer(r1: seq<byte>, r2: seq<byte>, name1: string, name2: string)
    requires |r1| == 4 && |r2| == 4 && r1 != r2
    ensures StoredFilename(r1, name1) != StoredFilename(r2, name2)
  {
    var s1, s2 := StoredFilename(r1, name1), StoredFilename(r2, name2);
    if s1 == s2 {
      assert s1[..8] == FileIds.Encode(r1) && s2[..8] == FileIds.Encode(r2);
      FileIds.EncodeInjective(r1, r2);
    }
  }

  /** `path.join("uploads", uuid, filename)` (route.ts:54,58). */
  function StoragePath(uuid: string, filename: string): (path: string)
    ensures |path| == 9 + |uuid| + |filename|
    ensures path[..8] == "uploads/" && path[8..8 + |uuid|] == uuid
    ensures path[8 + |uuid|] == '/' && path[9 + |uuid|..] == filename
  {
    "uploads/" + uuid + "/" + filename
  }

  /** `fileUrl` (route.ts:63). */
  function FileUrl(appUrl: string, filename: string): (url: string)
    ensures |url| == |appUrl| + 1 + |filename|
    ensures url[..|appUrl|] == appUrl && url[|appUrl|] == '/' && url[|appUrl| + 1..] == filename
  {
    appUrl + "/" + filename
  }

  /** `rawUrl` (route.ts:64). */
  function RawUrl(appUrl: string, uuid: string, filename: string): (url: string)
    ensures |url| == |appUrl| + 2 + |uuid| + |filename|
    ensures url[..|appUrl|] == appUrl && url[|appUrl|] == '/'
    ensures url[|appUrl| + 1..|appUrl| + 1 + |uuid|] == uuid
    ensures url[|appUrl| + 1 + |uuid|] == '/' && url[|appUrl| + 2 + |uuid|..] == filename
  {
    appUrl + "/" + uuid + "/" + filename
  }

  /** The record the route inserts for an accepted upload. */
  function NewRecord(recordId: string, file: FormFile, user: User, userId: string,
                     random: seq<byte>, appUrl: string, now: Millis): (r: FileRecord)
    requires |random| == 4
    ensures r.name == file.name && r.size == |file.data| && r.mimeType == file.mimeType
    ensures r.fileId == FileIds.GenerateFileId(random) && r.userId == userId
    ensures r.url == FileUrl(appUrl, StoredFilename(random, file.name))
    ensures r.rawUrl == RawUrl(appUrl, user.uuid, StoredFilename(random, file.name))
  {
    var filename := StoredFilename(random, file.name);
    FileRecord(recordId, file.name, |file.data|, file.mimeType,
               FileUrl(appUrl, filename), RawUrl(appUrl, user.uuid, filename),
               FileIds.GenerateFileId(random), userId, now)
  }

  /** `POST` (route.ts:12-93). */
  method Post(db: Database, disk: Disk, form: UploadForm, random: seq<byte>,
              appUrl: string, recordId: string, now: Millis) returns (resp: Response)
    requires |random| == 4
    modifies db`files, disk`blobs
    // 400 before any lookup when a field is missing
    ensures !(form.file.Some? && Truthy(form.userId)) ==>
      resp == Response(400, ErrorBody("File and userId are required"))
      && db.files == old(db.files) && disk.blobs == old(disk.blobs)
    // 404 for an unknown user
    ensures form.file.Some? && Truthy(form.userId) && UserById(db.users, form.userId.value).None? ==>
      resp == Response(404, ErrorBody("User not found"))
      && db.files == old(db.files) && disk.blobs == old(disk.blobs)
    // 400 above the tier limit, nothing saved
    ensures form.file.Some? && Truthy(form.userId) && UserById(db.users, form.userId.value).Some?
            && |form.file.value.data| > MaxSize(UploadIsPro(db.subscriptions, UserById(db.users, form.userId.value).value.id)) ==>
      var isPro := UploadIsPro(db.subscriptions, UserById(db.users, form.userId.value).value.id);
      resp == Response(400, ErrorBody("File size exceeds the limit (" + (if isPro then "2GB" else "100MB") + ")"))
      && db.files == old(db.files) && disk.blobs == old(disk.blobs)
    // 201 with one new record and one written file
    ensures form.file.Some? && Truthy(form.userId) && UserById(db.users, form.userId.value).Some?
            && |form.file.value.data| <= MaxSize(UploadIsPro(db.subscriptions, UserById(db.users, form.userId.value).value.id)) ==>
      var user := UserById(db.users, form.userId.value).value;
      var record := NewRecord(recordId, form.file.value, user, form.userId.value, random, appUrl, now);
      resp == Response(201, FileBody(record))
      && db.files == old(db.files) + [record]
      && disk.blobs == old(disk.blobs)[StoragePath(user.uuid, StoredFilename(random, form.file.value.name)) := form.file.value.data]
  {
    if form.file.None? || !Truthy(form.userId) {
      return Response(400, ErrorBody("File and userId are required"));
    }
    var file := form.file.value;
    var userId := form.userId.value;
    var found := UserById(db.users, userId);
    if found.None? {
      return Response(404, ErrorBody("User not found"));
    }
    var user := found.value;
    var isPro := UploadIsPro(db.subscriptions, user.id);
    var maxSize := MaxSize(isPro);
    if |file.data| > maxSize {
      var limit := if isPro then "2GB" else "100MB";
      return Response(400, ErrorBody("File size exceeds the limit (" + limit + ")"));
    }
    var fileId := FileIds.GenerateFileId(random);
    var extension := ServerUtils.GetFileExtension(file.name);
    var filename := fileId + extension;
    var filePath := StoragePath(user.uuid, filename);
    disk.blobs := disk.blobs[filePath := file.data];
    var fileUrl := FileUrl(appUrl, filename);
    var rawUrl := RawUrl(appUrl, user.uuid, filename);
    var fileData := FileRecord(recordId, file.name, |file.data|, file.mimeType, fileUrl, rawUrl, fileId, userId, now);
    db.files := db.files + [fileData];
    resp := Response(201, FileBody(fileData));
  }
}
