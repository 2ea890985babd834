/** `GET /api/files/me` (`src/app/api/files/me/route.ts`): the session
    user's files, newest first, and whether the dashboard treats the user as
    Pro (an active subscription or the admin flag). */
module FilesMeRoute {
  import opened Base
  import opened Schema
  import Seqs
  import UploadRoute
  import FileUploader

  /** Newest first: `orderBy: { createdAt: "desc" }`. */
  predicate NewestFirst(files: seq<FileRecord>) {
    forall i, j :: 0 <= i < j < |files| ==> files[i].createdAt >= files[j].createdAt
  }

  /** Puts `f` in front of the first record that is not newer than it. */
  function InsertByDate(f: FileRecord, sorted: seq<FileRecord>): (r: seq<FileRecord>)
    ensures multiset(r) == multiset(sorted) + multiset{f}
  {
    if sorted == [] || sorted[0].createdAt <= f.createdAt then [f] + sorted
    else
      assert sorted == [sorted[0]] + sorted[1..];
      [sorted[0]] + InsertByDate(f, sorted[1..])
  }

  /** Inserting into a newest-first sequence keeps it newest first. */
  lemma {:induction false} InsertKeepsNewestFirst(f: FileRecord, sorted: seq<FileRecord>)
    requires NewestFirst(sorted)
    ensures NewestFirst(InsertByDate(f, sorted))
  {
    var r := InsertByDate(f, sorted);
    if sorted == [] || sorted[0].createdAt <= f.createdAt {
      forall k | 0 <= k < |sorted| ensures sorted[k].createdAt <= f.createdAt {
        assert k == 0 || sorted[0].createdAt >= sorted[k].createdAt;
      }
    } else {
      var rest := InsertByDate(f, sorted[1..]);
      InsertKeepsNewestFirst(f, sorted[1..]);
      forall k | 0 <= k < |rest| ensures sorted[0].createdAt >= rest[k].createdAt {
        assert rest[k] in multiset(rest);
        if rest[k] != f {
          assert rest[k] in multiset(sorted[1..]);
          var j :| 0 <= j < |sorted[1..]| && sorted[1..][j] == rest[k];
          assert sorted[j + 1] == rest[k];
        }
      }
      assert r == [sorted[0]] + rest;
    }
  }

  /** The records ordered newest first, as `orderBy: { createdAt: "desc" }`
      returns them. */
  function SortNewestFirst(files: seq<FileRecord>): (r: seq<FileRecord>)
    ensures multiset(r) == multiset(files)
  {
    if files == [] then []
    else
      assert files == [files[0]] + files[1..];
      InsertByDate(files[0], SortNewestFirst(files[1..]))
  }

  /** The sort yields a newest-first permutation of its input. */
  lemma {:induction false} SortIsNewestFirst(files: seq<FileRecord>)
    ensures NewestFirst(SortNewestFirst(files))
  {
    if files != [] {
      SortIsNewestFirst(files[1..]);
      InsertKeepsNewestFirst(files[0], SortNewestFirst(files[1..]));
    }
  }

  /** The user's own files: `file.findMany({ where: { userId }, ... })`. */
  function FilesOf(files: seq<FileRecord>, userId: string): (own: seq<FileRecord>)
    ensures forall f :: f in own <==> f in files && f.userId == userId
  {
    Seqs.Filter((f: FileRecord) => f.userId == userId, files)
  }

  /** `isPro: !!subscription || !!user?.admin` */
  predicate DashboardIsPro(users: seq<User>, subs: seq<Subscription>, userId: string)
    ensures (forall i :: 0 <= i < |users| ==> !users[i].admin) ==>
      (DashboardIsPro(users, subs, userId) <==> HasActiveSubscription(subs, userId))
  {
    HasActiveSubscription(subs, userId)
    || (UserById(users, userId).Some? && UserById(users, userId).value.admin)
  }

  /** `GET` (route.ts:6-30). */
  function Get(users: seq<User>, files: seq<FileRecord>, subs: seq<Subscription>,
               session: Option<Session>): (resp: Response)
    ensures SessionUserId(session).None? <==> resp == Response(401, ErrorBody("Unauthorized"))
    ensures SessionUserId(session).Some? ==>
      var userId := SessionUserId(session).value;
      resp.status == 200 && resp.body.FilesBody?
      && NewestFirst(resp.body.files)
      && multiset(resp.body.files) == multiset(FilesOf(files, userId))
      && (forall f :: f in resp.body.files <==> f in files && f.userId == userId)
      && (resp.body.isPro <==> DashboardIsPro(users, subs, userId))
  {
    var userId := SessionUserId(session);
    if userId.None? then Response(401, ErrorBody("Unauthorized"))
    else
      var own := SortNewestFirst(FilesOf(files, userId.value));
      SortIsNewestFirst(FilesOf(files, userId.value));
      assert forall f :: f in own <==> f in multiset(own);
      Response(200, FilesBody(own, DashboardIsPro(users, subs, userId.value)))
  }

  /** The admin flag makes the dashboard show Pro, and the drop zone then
      accepts files up to the Pro limit, but the upload route looks only at
      the subscription: an admin without an active subscription is refused
      above the free limit. */
  lemma AdminWithoutSubscriptionGetsFreeUploadLimit(users: seq<User>, subs: seq<Subscription>, userId: string)
    requires UserById(users, userId).Some? && UserById(users, userId).value.admin
    requires !HasActiveSubscription(subs, userId)
    requires OnePerUser(subs)
    ensures DashboardIsPro(users, subs, userId)
    ensures !UploadRoute.UploadIsPro(subs, userId)
    ensures UploadRoute.MaxSize(UploadRoute.UploadIsPro(subs, userId)) < FileUploader.MaxSize(DashboardIsPro(users, subs, userId))
  {
    SubscriptionOfActiveIffHasActive(subs, userId);
  }

  /** For a user who is not an admin, the dashboard and the upload route
      agree on the tier. */
  lemma TiersAgreeForNonAdmins(users: seq<User>, subs: seq<Subscription>, userId: string)
    requires UserById(users, userId).None? || !UserById(users, userId).value.admin
    requires OnePerUser(subs)
    ensures DashboardIsPro(users, subs, userId) <==> UploadRoute.UploadIsPro(subs, userId)
  {
    SubscriptionOfActiveIffHasActive(subs, userId);
  }
}
