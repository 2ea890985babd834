/** The records of the application's database, the HTTP responses of its
    route handlers, the authenticated session, and the database itself as a
    set of tables that the handlers read and update. */
module Schema {
  import opened Base
  import Seqs

  datatype User = User(id: string, uuid: string, email: string, password: string, admin: bool)

  datatype FileRecord = FileRecord(
    id: string, name: string, size: nat, mimeType: string,
    url: string, rawUrl: string, fileId: string, userId: string, createdAt: Millis)

  datatype Subscription = Subscription(
    id: string, userId: string, stripeCustomerId: string,
    stripeSubscriptionId: Option<string>, stripePriceId: string, status: string,
    currentPeriodEnd: Option<Millis>, canceledAt: Option<Millis>)

  datatype ShareLink = ShareLink(
    shareId: string, fileId: string, userId: string,
    password: Option<string>, expiresAt: Option<Millis>)

  datatype VerificationToken = VerificationToken(identifier: string, token: string, expires: Millis)

  /** The JSON body of a response. */
  datatype Body =
    | ErrorBody(error: string)
    | MessageBody(message: string)
    | FileBody(file: FileRecord)
    | ShareBody(shareUrl: string)
    | FilesBody(files: seq<FileRecord>, isPro: bool)
    | ReceivedBody

  datatype Response = Response(status: int, body: Body)

  /** The `id` key of the session user: absent, present but `undefined`, or a
      string. The session callback (src/lib/auth.ts:141-148) always writes the
      key, copying `token.id` even when the token carries none. */
  datatype IdKey = NoIdKey | UndefinedId | StringId(value: string)

  /** What `getServerSession` returns. */
  datatype SessionUser = SessionUser(id: IdKey)
  datatype Session = Session(user: Option<SessionUser>)

  /** The guard `!session || !session.user || !session.user.id`: the session
      user's id when it is present and non-empty. */
  function SessionUserId(session: Option<Session>): (id: Option<string>)
    ensures id.Some? <==> session.Some? && session.value.user.Some?
                          && session.value.user.value.id.StringId? && session.value.user.value.id.value != ""
    ensures id.Some? ==> id.value != "" && session.value.user.value.id == StringId(id.value)
  {
    if session.Some? && session.value.user.Some? && session.value.user.value.id.StringId?
       && session.value.user.value.id.value != ""
    then Some(session.value.user.value.id.value) else None
  }

  /** A subscription grants Pro exactly when its status is "active". */
  predicate IsActive(s: Subscription) {
    s.status == "active"
  }

  /** `findFirst({ where: { userId, status: "active" } })` is non-null. */
  predicate HasActiveSubscription(subs: seq<Subscription>, userId: string) {
    exists i :: 0 <= i < |subs| && subs[i].userId == userId && IsActive(subs[i])
  }

  /** The subscription table holds at most one row per user (`userId` is the
      unique key of the `upsert` in the billing webhook). */
  ghost predicate OnePerUser(subs: seq<Subscription>) {
    forall i, j :: 0 <= i < j < |subs| ==> subs[i].userId != subs[j].userId
  }

  ghost predicate UniqueUserIds(users: seq<User>) {
    forall i, j :: 0 <= i < j < |users| ==> users[i].id != users[j].id
  }

  ghost predicate UniqueEmails(users: seq<User>) {
    forall i, j :: 0 <= i < j < |users| ==> users[i].email != users[j].email
  }

  ghost predicate UniqueTokens(tokens: seq<VerificationToken>) {
    forall i, j :: 0 <= i < j < |tokens| ==> tokens[i].token != tokens[j].token
  }

  /** `user.findUnique({ where: { id } })` */
  function UserById(users: seq<User>, id: string): Option<User> {
    Seqs.FirstMatch((u: User) => u.id == id, users)
  }

  /** `user.findUnique({ where: { email } })` */
  function UserByEmail(users: seq<User>, email: string): Option<User> {
    Seqs.FirstMatch((u: User) => u.email == email, users)
  }

  /** `verificationToken.findUnique({ where: { token } })` */
  function TokenByValue(tokens: seq<VerificationToken>, token: string): (t: Option<VerificationToken>)
    ensures t.Some? ==> t.value in tokens && t.value.token == token
    ensures t.None? <==> forall i :: 0 <= i < |tokens| ==> tokens[i].token != token
  {
    Seqs.FirstMatch((t: VerificationToken) => t.token == token, tokens)
  }

  /** The user's subscription row (`include: { subscription: true }` and
      `subscription.findFirst({ where: { userId } })`). */
  function SubscriptionOf(subs: seq<Subscription>, userId: string): Option<Subscription> {
    Seqs.FirstMatch((s: Subscription) => s.userId == userId, subs)
  }

  /** When each user has at most one subscription row, the user's row is
      active exactly when an active row for the user exists, so the upload
      route's `user.subscription?.status === "active"` and the share route's
      `findFirst({ userId, status: "active" })` agree. */
  lemma SubscriptionOfActiveIffHasActive(subs: seq<Subscription>, userId: string)
    requires OnePerUser(subs)
    ensures (SubscriptionOf(subs, userId).Some? && IsActive(SubscriptionOf(subs, userId).value))
        <==> HasActiveSubscription(subs, userId)
  {
    var p := (s: Subscription) => s.userId == userId;
    Seqs.FirstMatchAtFirstIndex(p, subs);
    var k := Seqs.FirstIndex(p, subs);
    if HasActiveSubscription(subs, userId) {
      var i :| 0 <= i < |subs| && subs[i].userId == userId && IsActive(subs[i]);
      assert k <= i;
      assert k == i;
    }
  }

  /** The application's tables. */
  class Database {
    var users: seq<User>
    var files: seq<FileRecord>
    var subscriptions: seq<Subscription>
    var shareLinks: seq<ShareLink>
    var tokens: seq<VerificationToken>

    /** The uniqueness constraints of the schema. */
    ghost predicate Valid()
      reads this
    {
      UniqueUserIds(users) && UniqueEmails(users)
      && OnePerUser(subscriptions) && UniqueTokens(tokens)
    }

    constructor (users: seq<User>)
      requires UniqueUserIds(users) && UniqueEmails(users)
      ensures Valid()
      ensures this.users == users && files == [] && subscriptions == []
      ensures shareLinks == [] && tokens == []
    {
      this.users := users;
      files, subscriptions, shareLinks, tokens := [], [], [], [];
    }
  }
}
