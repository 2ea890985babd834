/** `POST /api/files/share` (`src/app/api/files/share/route.ts`): creates a
    share link for a file the session user owns. Password protection and
    expiry are Pro features. The random bytes of the share id, the password
    hash function and the `NEXT_PUBLIC_APP_URL` variable are inputs. */
module ShareRoute {
  import opened Base
  import opened Schema
  import Seqs
  import FileIds

  /** The JSON body: `expiryDate` is `None` when absent or empty (the date
      string is taken as already parsed to milliseconds). */
  datatype ShareRequest = ShareRequest(fileId: string, password: Option<string>, expiryDate: Option<Millis>)

  /** `file.findUnique({ where: { id } })` */
  function FileById(files: seq<FileRecord>, id: string): (f: Option<FileRecord>)
    ensures f.Some? ==> f.value in files && f.value.id == id
    ensures f.None? <==> forall i :: 0 <= i < |files| ==> files[i].id != id
  {
    Seqs.FirstMatch((r: FileRecord) => r.id == id, files)
  }

  /** A request asks for a Pro feature when it carries a non-empty password
      or an expiry date. */
  predicate WantsProFeature(req: ShareRequest) {
    Truthy(req.password) || req.expiryDate.Some?
  }

  /** `process.env.NEXT_PUBLIC_APP_URL || "http://localhost:3000"` */
  function BaseUrl(appUrl: Option<string>): (url: string)
    ensures Truthy(appUrl) ==> url == appUrl.value
    ensures !Truthy(appUrl) ==> url == "http://localhost:3000"
    ensures url != ""
  {
    if Truthy(appUrl) then appUrl.value else "http://localhost:3000"
  }

  /** `${baseUrl}/share/${shareId}` */
  function ShareUrl(appUrl: Option<string>, shareId: string): (url: string)
    ensures |url| == |BaseUrl(appUrl)| + 7 + |shareId|
    ensures url[..|BaseUrl(appUrl)|] == BaseUrl(appUrl)
    ensures url[|BaseUrl(appUrl)|..] == "/share/" + shareId
  {
    BaseUrl(appUrl) + "/share/" + shareId
  }

  /** The link row the route inserts: the password is stored only as its
      hash and only when one was given. */
  function NewLink(req: ShareRequest, file: FileRecord, userId: string, shareId: string,
                   hash: string -> string): (link: ShareLink)
    ensures link.shareId == shareId && link.fileId == file.id && link.userId == userId
    ensures link.password.Some? <==> Truthy(req.password)
    ensures link.password.Some? ==> link.password.value == hash(req.password.value)
    ensures link.expiresAt == req.expiryDate
  {
    ShareLink(shareId, file.id, userId,
              if Truthy(req.password) then Some(hash(req.password.value)) else None,
              req.expiryDate)
  }

  /** The share id at the end of a share URL is the one stored in the link. */
  lemma ShareUrlEndsWithShareId(appUrl: Option<string>, random: seq<byte>)
    requires |random| == 4
    ensures var url := ShareUrl(appUrl, FileIds.GenerateFileId(random));
            |url| >= 8 && url[|url| - 8..] == FileIds.GenerateFileId(random)
  {
  }

  /** A free user's link is never password-protected nor expiring. */
  lemma FreeLinksArePlain(req: ShareRequest, file: FileRecord, userId: string, shareId: string,
                          hash: string -> string)
    requires !WantsProFeature(req)
    ensures NewLink(req, file, userId, shareId, hash).password.None?
    ensures NewLink(req, file, userId, shareId, hash).expiresAt.None?
  {
  }

  /** `POST` (route.ts:9-89). */
  method Post(db: Database, session: Option<Session>, req: ShareRequest, random: seq<byte>,
              hash: string -> string, appUrl: Option<string>) returns (resp: Response)
    requires |random| == 4
    modifies db`shareLinks
    ensures SessionUserId(session).None? ==>
      resp == Response(401, ErrorBody("Unauthorized")) && db.shareLinks == old(db.shareLinks)
    ensures SessionUserId(session).Some? && FileById(db.files, req.fileId).None? ==>
      resp == Response(404, ErrorBody("File not found")) && db.shareLinks == old(db.shareLinks)
    ensures SessionUserId(session).Some? && FileById(db.files, req.fileId).Some?
            && FileById(db.files, req.fileId).value.userId != SessionUserId(session).value ==>
      resp == Response(403, ErrorBody("Unauthorized")) && db.shareLinks == old(db.shareLinks)
    ensures SessionUserId(session).Some? && FileById(db.files, req.fileId).Some?
            && FileById(db.files, req.fileId).value.userId == SessionUserId(session).value
            && WantsProFeature(req) && !HasActiveSubscription(db.subscriptions, SessionUserId(session).value) ==>
      resp == Response(403, ErrorBody("Pro subscription required for these features"))
      && db.shareLinks == old(db.shareLinks)
    ensures SessionUserId(session).Some? && FileById(db.files, req.fileId).Some?
            && FileById(db.files, req.fileId).value.userId == SessionUserId(session).value
            && (!WantsProFeature(req) || HasActiveSubscription(db.subscriptions, SessionUserId(session).value)) ==>
      var shareId := FileIds.GenerateFileId(random);
      resp == Response(201, ShareBody(ShareUrl(appUrl, shareId)))
      && db.shareLinks == old(db.shareLinks)
           + [NewLink(req, FileById(db.files, req.fileId).value, SessionUserId(session).value, shareId, hash)]
    // a link is only ever created for the owner's own file
    ensures |db.shareLinks| > |old(db.shareLinks)| ==>
      resp.status == 201 && SessionUserId(session).Some?
      && exists i :: 0 <= i < |db.files| && db.files[i].id == req.fileId
                     && db.files[i].userId == SessionUserId(session).value
  {
    var userId := SessionUserId(session);
    if userId.None? {
      return Response(401, ErrorBody("Unauthorized"));
    }
    var file := FileById(db.files, req.fileId);
    if file.None? {
      return Response(404, ErrorBody("File not found"));
    }
    if file.value.userId != userId.value {
      return Response(403, ErrorBody("Unauthorized"));
    }
    var isPro := HasActiveSubscription(db.subscriptions, userId.value);
    if WantsProFeature(req) && !isPro {
      return Response(403, ErrorBody("Pro subscription required for these features"));
    }
    var shareId := FileIds.GenerateFileId(random);
    var hashedPassword: Option<string> := None;
    if Truthy(req.password) {
      hashedPassword := Some(hash(req.password.value));
    }
    db.shareLinks := db.shareLinks + [ShareLink(shareId, file.value.id, userId.value, hashedPassword, req.expiryDate)];
    resp := Response(201, ShareBody(ShareUrl(appUrl, shareId)));
  }
}
