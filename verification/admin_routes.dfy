/** The admin API of router/adminRoutes.js over the message collection: the token gate,
    login, the paginated newest-first listing, single-message lookup, status updates,
    deletion, the reply mailer and the dashboard counters. Each handler is one atomic step. */
module AdminRoutes {
  import opened Text
  import opened Email
  import opened MessageModel

  /** An error response: HTTP status code and the `message` field of the JSON body. */
  datatype Failure = Failure(code: nat, message: string)

  datatype Response<T> = Ok(value: T) | Fail(failure: Failure)

  const NoToken := Failure(401, "No token provided")
  const BadToken := Failure(401, "Invalid or expired token")
  const NotFound := Failure(404, "Message not found")
  /** The `message` of a successful delete; the deleted record itself is not sent back. */
  const DeletedMessage := "Message deleted successfully"

  /** JavaScript truthiness of an optional string: absent and empty are both falsy. */
  predicate Truthy(o: Option<string>) {
    o.Some? && o.value != ""
  }

  /** The `auth` middleware; `verify` stands for `jwt.verify` with the server's secret. */
  function Authenticate(token: Option<string>, verify: string -> bool): (r: Option<Failure>)
    ensures r.None? <==> Truthy(token) && verify(token.value)
    ensures r.Some? ==> r.value.code == 401
    ensures r == Some(NoToken) <==> !Truthy(token)
  {
    if !Truthy(token) then Some(NoToken)
    else if !verify(token.value) then Some(BadToken)
    else None
  }

  /** A handler behind the gate: a rejected token answers with the gate's failure instead. */
  function Guarded<T>(token: Option<string>, verify: string -> bool, handler: Response<T>): (r: Response<T>)
    ensures !Truthy(token) ==> r == Fail(NoToken)
    ensures Truthy(token) && !verify(token.value) ==> r.Fail? && r.failure.code == 401
    ensures Truthy(token) && verify(token.value) ==> r == handler
  {
    match Authenticate(token, verify)
    case Some(f) => Fail(f)
    case None => handler
  }

  // ---------------------------------------------------------------- login

  /** An administrator account; `comparePassword` is a parameter of `Login`. */
  datatype Admin = Admin(id: nat, username: string, passwordHash: string)

  datatype LoginRequest = LoginRequest(username: Option<string>, password: Option<string>)

  /** A successful login: the signed token and the public part of the account. */
  datatype LoginOk = LoginOk(token: string, id: nat, username: string)

  const CredentialsRequired := Failure(400, "Username and password are required")
  const InvalidCredentials := Failure(401, "Invalid username or password")

  /** `Admin.findOne({ username })`: the first account with that user name. */
  function FindAdmin(admins: seq<Admin>, username: string): (r: Option<Admin>)
    ensures r.Some? ==> r.value in admins && r.value.username == username
    ensures r.None? ==> forall a :: a in admins ==> a.username != username
  {
    if admins == [] then None
    else if admins[0].username == username then Some(admins[0])
    else FindAdmin(admins[1..], username)
  }

  /** `POST /login`; `comparePassword` stands for bcrypt's comparison and `sign` for `jwt.sign`. */
  function Login(admins: seq<Admin>, req: LoginRequest,
                 comparePassword: (Admin, string) -> bool, sign: (nat, string) -> string): Response<LoginOk>
  {
    if !Truthy(req.username) || !Truthy(req.password) then Fail(CredentialsRequired)
    else match FindAdmin(admins, req.username.value)
      case None => Fail(InvalidCredentials)
      case Some(a) =>
        if !comparePassword(a, req.password.value) then Fail(InvalidCredentials)
        else Ok(LoginOk(sign(a.id, a.username), a.id, a.username))
  }

  /** Login fails with 400 exactly when a credential is missing, and otherwise answers an
      unknown user and a wrong password with the same 401, so a caller cannot tell them apart;
      a success carries a token signed for the matching account. */
  lemma LoginOutcomes(admins: seq<Admin>, req: LoginRequest,
                      comparePassword: (Admin, string) -> bool, sign: (nat, string) -> string)
    ensures var r := Login(admins, req, comparePassword, sign);
      && (r == Fail(CredentialsRequired) <==> !Truthy(req.username) || !Truthy(req.password))
      && (r.Fail? ==> r.failure == CredentialsRequired || r.failure == InvalidCredentials)
      && (Truthy(req.username) && Truthy(req.password) && (forall a :: a in admins ==> a.username != req.username.value)
          ==> r == Fail(InvalidCredentials))
      && (Truthy(req.username) && Truthy(req.password) && FindAdmin(admins, req.username.value).Some?
          && !comparePassword(FindAdmin(admins, req.username.value).value, req.password.value)
          ==> r == Fail(InvalidCredentials))
      && (r.Ok? ==> exists a :: a in admins && a.username == req.username.value && comparePassword(a, req.password.value)
                     && r.value == LoginOk(sign(a.id, a.username), a.id, a.username))
  {
    if Truthy(req.username) && Truthy(req.password) {
      var found := FindAdmin(admins, req.username.value);
      if (forall a :: a in admins ==> a.username != req.username.value) {
        assert found.None?;
      }
    }
  }

  // ---------------------------------------------------------------- listing

  /** The query string of `GET /messages`; `status` is what the admin panel sends for its filter. */
  datatype ListQuery = ListQuery(page: Option<string>, limit: Option<string>, status: Option<string>)

  /** `parseInt(x) || fallback`: an absent, unparsable or zero parameter gives the fallback. */
  function IntParamOr(q: Option<string>, fallback: int): (v: int)
    requires fallback != 0
    ensures v != 0
  {
    match q
    case None => fallback
    case Some(s) =>
      match ParseInt(s)
      case None => fallback
      case Some(n) => if n == 0 then fallback else n
  }

  lemma IntParamOrCases(n: int, fallback: int)
    requires fallback != 0
    ensures IntParamOr(None, fallback) == fallback
    ensures IntParamOr(Some(IntToDecimal(n)), fallback) == (if n == 0 then fallback else n)
  {
    ParseIntOfDecimal(n);
  }

  /** The fields the listing projects (`name email subject message status createdAt`, plus `_id`). */
  datatype Summary = Summary(id: MessageId, name: string, email: string, subject: string,
                             message: string, status: Status, createdAt: int)

  function Summarize(r: MessageRecord): Summary {
    Summary(r.id, r.name, r.email, r.subject, r.message, r.status, r.createdAt)
  }

  function SummarizeAll(rs: seq<MessageRecord>): (s: seq<Summary>)
    ensures |s| == |rs| && forall i :: 0 <= i < |rs| ==> s[i] == Summarize(rs[i])
  {
    if rs == [] then [] else [Summarize(rs[0])] + SummarizeAll(rs[1..])
  }

  datatype Pagination = Pagination(page: int, limit: int, total: nat, pages: int)

  datatype Listing = Listing(data: seq<Summary>, pagination: Pagination)

  predicate NewestFirst(rs: seq<MessageRecord>) {
    forall i, j :: 0 <= i < j < |rs| ==> rs[i].createdAt >= rs[j].createdAt
  }

  /** Places `r` before the first record that is not newer than it. */
  function InsertByDate(r: MessageRecord, rs: seq<MessageRecord>): (s: seq<MessageRecord>)
    ensures multiset(s) == multiset(rs) + multiset{r}
    ensures |s| == |rs| + 1
  {
    if rs == [] || rs[0].createdAt <= r.createdAt then [r] + rs
    else assert rs == [rs[0]] + rs[1..]; [rs[0]] + InsertByDate(r, rs[1..])
  }

  /** `.sort({ createdAt: -1 })`; records with equal `createdAt` keep a fixed order. */
  function SortNewestFirst(rs: seq<MessageRecord>): (s: seq<MessageRecord>)
    ensures multiset(s) == multiset(rs)
    ensures |s| == |rs|
  {
    if rs == [] then []
    else assert rs == [rs[0]] + rs[1..]; InsertByDate(rs[0], SortNewestFirst(rs[1..]))
  }

  lemma {:induction false} InsertByDateOrdered(r: MessageRecord, rs: seq<MessageRecord>)
    requires NewestFirst(rs)
    ensures NewestFirst(InsertByDate(r, rs))
  {
    if rs != [] && rs[0].createdAt > r.createdAt {
      InsertByDateOrdered(r, rs[1..]);
      var t := InsertByDate(r, rs[1..]);
      forall k | 0 <= k < |t| ensures rs[0].createdAt >= t[k].createdAt {
        assert t[k] in multiset(t);
        assert t[k] == r || t[k] in multiset(rs[1..]);
        if t[k] != r {
          var m :| 0 <= m < |rs[1..]| && rs[1..][m] == t[k];
          assert rs[m + 1] == t[k];
        }
      }
    }
  }

  lemma {:induction false} SortNewestFirstOrdered(rs: seq<MessageRecord>)
    ensures NewestFirst(SortNewestFirst(rs))
  {
    if rs != [] {
      SortNewestFirstOrdered(rs[1..]);
      InsertByDateOrdered(rs[0], SortNewestFirst(rs[1..]));
    }
  }

  function Abs(n: int): nat {
    if n < 0 then -n else n
  }

  /** `Math.ceil(total / limit)` for a non-zero integer `limit`. */
  function CeilDiv(total: nat, limit: int): int
    requires limit != 0
  {
    if limit > 0 then (total + limit - 1) / limit else -(total / -limit)
  }

  /** For a positive limit the page count is the least number of pages of `limit` records
      that hold every record. */
  lemma CeilDivLeast(total: nat, limit: int)
    requires limit > 0
    ensures CeilDiv(total, limit) >= 0
    ensures CeilDiv(total, limit) * limit >= total
    ensures CeilDiv(total, limit) == 0 || (CeilDiv(total, limit) - 1) * limit < total
  {
    var p := CeilDiv(total, limit);
    var q := total + limit - 1;
    assert q == p * limit + q % limit;
  }

  /** The records `skip` to `skip + n` of `s`, cut short at its end (`.skip(skip).limit(n)`). */
  function PageSlice(s: seq<MessageRecord>, skip: nat, n: nat): (w: seq<MessageRecord>)
    ensures |w| <= n
    ensures skip < |s| ==> |w| == (if skip + n < |s| then n else |s| - skip)
    ensures forall i :: 0 <= i < |w| ==> skip + i < |s| && w[i] == s[skip + i]
  {
    if skip >= |s| then [] else s[skip..if skip + n < |s| then skip + n else |s|]
  }

  const FetchError := Failure(500, "Error fetching messages")

  /** `GET /messages`: skip `(page - 1) * limit` records of the newest-first order and return at
      most `|limit|` of them (the driver reads a negative limit as its magnitude); a negative skip
      makes the query fail. `total` counts every message. */
  function ListMessages(rs: seq<MessageRecord>, q: ListQuery): Response<Listing> {
    var page := IntParamOr(q.page, 1);
    var limit := IntParamOr(q.limit, 50);
    var skip := (page - 1) * limit;
    if skip < 0 then Fail(FetchError)
    else Ok(Listing(SummarizeAll(PageSlice(SortNewestFirst(rs), skip, Abs(limit))),
                    Pagination(page, limit, |rs|, CeilDiv(|rs|, limit))))
  }

  /** A page of the sorted collection, summarized: at most `n` entries, in the collection's
      order, each the summary of the record at `skip` plus its position. */
  lemma PageDataSpec(sorted: seq<MessageRecord>, skip: nat, n: nat)
    requires NewestFirst(sorted)
    ensures var data := SummarizeAll(PageSlice(sorted, skip, n));
      && |data| <= n
      && (skip < |sorted| ==> |data| == (if skip + n < |sorted| then n else |sorted| - skip))
      && (forall i :: 0 <= i < |data| ==> skip + i < |sorted| && data[i] == Summarize(sorted[skip + i]))
      && (forall i, j :: 0 <= i < j < |data| ==> data[i].createdAt >= data[j].createdAt)
  {
    var data := SummarizeAll(PageSlice(sorted, skip, n));
    forall i, j | 0 <= i < j < |data| ensures data[i].createdAt >= data[j].createdAt {
      assert data[i].createdAt == sorted[skip + i].createdAt;
      assert data[j].createdAt == sorted[skip + j].createdAt;
    }
  }

  /** What a listing holds: at most `|limit|` summaries, newest first, forming the contiguous
      run of the sorted collection that starts at the skip; `total` is the collection size.
      A negative skip is the 500 error. */
  lemma ListMessagesSpec(rs: seq<MessageRecord>, q: ListQuery, page: int, limit: int, skip: int)
    requires page == IntParamOr(q.page, 1) && limit == IntParamOr(q.limit, 50) && skip == (page - 1) * limit
    ensures ListMessages(rs, q).Fail? <==> skip < 0
    ensures ListMessages(rs, q).Fail? ==> ListMessages(rs, q).failure == FetchError
    ensures ListMessages(rs, q).Ok? ==>
      var data := ListMessages(rs, q).value.data;
      && ListMessages(rs, q).value.pagination == Pagination(page, limit, |rs|, CeilDiv(|rs|, limit))
      && |data| <= Abs(limit)
      && (skip < |rs| ==> |data| == (if skip + Abs(limit) < |rs| then Abs(limit) else |rs| - skip))
      && (forall i :: 0 <= i < |data| ==> skip + i < |rs| && data[i] == Summarize(SortNewestFirst(rs)[skip + i]))
      && (forall i, j :: 0 <= i < j < |data| ==> data[i].createdAt >= data[j].createdAt)
  {
    if skip >= 0 {
      SortNewestFirstOrdered(rs);
      PageDataSpec(SortNewestFirst(rs), skip, Abs(limit));
    }
  }

  /** The listing reads no status from the query: the panel's filter has no effect on it. */
  lemma ListIgnoresStatusFilter(rs: seq<MessageRecord>, q: ListQuery, status: Option<string>)
    ensures ListMessages(rs, q) == ListMessages(rs, q.(status := status))
  {
  }

  lemma MulNonNegative(a: int, b: int)
    requires a >= 0 && b >= 0
    ensures a * b >= 0
  {
  }

  lemma MulCancelLess(a: int, b: int, c: int)
    requires c > 0 && a * c < b * c
    ensures a < b
  {
  }

  /** Position `k` of the newest-first order sits on page `k / limit + 1`, at `k % limit`,
      and that page does not exceed `ceil(n / limit)`. */
  lemma PagePosition(n: nat, limit: int, k: nat) returns (d: nat, m: nat)
    requires limit > 0 && k < n
    ensures d == k / limit && m == k % limit
    ensures d * limit + m == k && m < limit
    ensures d + 1 <= CeilDiv(n, limit)
  {
    d := k / limit;
    m := k % limit;
    CeilDivLeast(n, limit);
    MulCancelLess(d, CeilDiv(n, limit), limit);
  }

  /** With a positive limit, the message at position `k` of the newest-first order is listed on
      page `k / limit + 1` at position `k % limit`, and that page is within the page count. */
  lemma EveryMessageOnSomePage(rs: seq<MessageRecord>, q: ListQuery, limit: int, k: nat)
    requires limit > 0 && k < |rs|
    requires IntParamOr(q.page, 1) == k / limit + 1 && IntParamOr(q.limit, 50) == limit
    ensures ListMessages(rs, q).Ok?
    ensures k / limit + 1 <= ListMessages(rs, q).value.pagination.pages
    ensures k % limit < |ListMessages(rs, q).value.data|
    ensures ListMessages(rs, q).value.data[k % limit] == Summarize(SortNewestFirst(rs)[k])
  {
    var d, m := PagePosition(|rs|, limit, k);
    MessageOnPage(rs, q, d + 1, limit, m, k);
  }

  lemma MessageOnPage(rs: seq<MessageRecord>, q: ListQuery, page: int, limit: int, pos: nat, k: nat)
    requires limit > 0 && page >= 1 && pos < limit && k < |rs|
    requires (page - 1) * limit + pos == k && page <= CeilDiv(|rs|, limit)
    requires IntParamOr(q.page, 1) == page && IntParamOr(q.limit, 50) == limit
    ensures ListMessages(rs, q).Ok?
    ensures pos < |ListMessages(rs, q).value.data|
    ensures page <= ListMessages(rs, q).value.pagination.pages
    ensures ListMessages(rs, q).value.data[pos] == Summarize(SortNewestFirst(rs)[k])
  {
    var skip := (page - 1) * limit;
    MulNonNegative(page - 1, limit);
    assert skip >= 0;
    ListMessagesSpec(rs, q, page, limit, skip);
    var data := ListMessages(rs, q).value.data;
    assert skip <= k;
    assert skip < |rs|;
    assert |data| == (if skip + Abs(limit) < |rs| then Abs(limit) else |rs| - skip);
    assert pos < |data|;
    assert data[pos] == Summarize(SortNewestFirst(rs)[skip + pos]);
  }

  /** The query `?page=<p>&limit=<l>` the panel builds is read back as `p` and `l`. */
  lemma PageQueryReadBack(p: int, l: int)
    requires p != 0 && l != 0
    ensures var q := ListQuery(Some(IntToDecimal(p)), Some(IntToDecimal(l)), None);
      IntParamOr(q.page, 1) == p && IntParamOr(q.limit, 50) == l
  {
    IntParamOrCases(p, 1);
    IntParamOrCases(l, 50);
  }

  // ---------------------------------------------------------------- single records

  predicate UniqueIds(rs: seq<MessageRecord>) {
    forall i, j :: 0 <= i < j < |rs| ==> rs[i].id != rs[j].id
  }

  /** Position of the record with id `id`, or -1 (`findById`). */
  function IndexOf(rs: seq<MessageRecord>, id: MessageId): (i: int)
    ensures -1 <= i < |rs|
    ensures i >= 0 ==> rs[i].id == id && forall j :: 0 <= j < i ==> rs[j].id != id
    ensures i == -1 ==> forall j :: 0 <= j < |rs| ==> rs[j].id != id
  {
    if rs == [] then -1
    else if rs[0].id == id then 0
    else var k := IndexOf(rs[1..], id); if k == -1 then -1 else k + 1
  }

  /** `GET /messages/:id`. */
  function GetMessage(rs: seq<MessageRecord>, id: MessageId): (r: Response<MessageRecord>)
    ensures r.Ok? <==> exists i :: 0 <= i < |rs| && rs[i].id == id
    ensures r.Ok? ==> r.value in rs && r.value.id == id
    ensures r.Fail? ==> r.failure == NotFound
  {
    var i := IndexOf(rs, id);
    if i < 0 then Fail(NotFound) else Ok(rs[i])
  }

  /** A response paired with the collection it leaves behind. */
  datatype Outcome<T> = Outcome(response: Response<T>, records: seq<MessageRecord>)

  const StatusRequired := Failure(400, "Status is required")
  const InvalidStatus := Failure(400, "Invalid status value")

  /** The statuses the status route accepts. */
  const RouteStatuses: seq<string> := ["new", "read", "replied", "archived", "failed"]

  /** The route's allow-list is narrower than the schema's enum: `spam` and `sent` are valid
      statuses of a record but cannot be set through the route. */
  lemma RouteStatusesWithinEnum()
    ensures forall s :: s in RouteStatuses ==> ParseStatus(s).Some?
    ensures ParseStatus("sent") == Some(Sent) && "sent" !in RouteStatuses
    ensures ParseStatus("spam") == Some(Spam) && "spam" !in RouteStatuses
  {
  }

  /** `PUT /messages/:id/status`: `findByIdAndUpdate` sets the status and, through the schema's
      timestamps, `updatedAt`; the updated record is returned. */
  function UpdateStatus(rs: seq<MessageRecord>, id: MessageId, status: Option<string>, now: int): Outcome<MessageRecord> {
    if !Truthy(status) then Outcome(Fail(StatusRequired), rs)
    else if status.value !in RouteStatuses then Outcome(Fail(InvalidStatus), rs)
    else
      var i := IndexOf(rs, id);
      if i < 0 then Outcome(Fail(NotFound), rs)
      else
        var updated := rs[i].(status := ParseStatus(status.value).value, updatedAt := now);
        Outcome(Ok(updated), rs[i := updated])
  }

  /** The three error cases of the status route, each leaving the collection as it was, and on
      success a change to the one record with that id: its status and `updatedAt`, nothing else. */
  lemma UpdateStatusSpec(rs: seq<MessageRecord>, id: MessageId, status: Option<string>, now: int)
    requires UniqueIds(rs)
    ensures var o := UpdateStatus(rs, id, status, now);
      && (o.response.Fail? ==> o.records == rs)
      && (o.response == Fail(StatusRequired) <==> !Truthy(status))
      && (o.response == Fail(InvalidStatus) <==> Truthy(status) && status.value !in RouteStatuses)
      && (o.response == Fail(NotFound) <==>
            Truthy(status) && status.value in RouteStatuses && forall j :: 0 <= j < |rs| ==> rs[j].id != id)
      && (o.response.Ok? ==>
            && StatusName(o.response.value.status) == status.value
            && |o.records| == |rs|
            && UniqueIds(o.records)
            && o.response.value in o.records
            && forall j :: 0 <= j < |rs| ==>
                 o.records[j] == (if rs[j].id == id then rs[j].(status := o.response.value.status, updatedAt := now) else rs[j]))
  {
    var o := UpdateStatus(rs, id, status, now);
    if o.response.Ok? {
      var i := IndexOf(rs, id);
      ParseStatusIff(status.value, o.response.value.status);
      assert o.records[i] == o.response.value;
    }
  }

  /** The collection without position `i`. */
  function RemoveAt(rs: seq<MessageRecord>, i: nat): seq<MessageRecord>
    requires i < |rs|
  {
    rs[..i] + rs[i + 1..]
  }

  /** `DELETE /messages/:id` (`findByIdAndDelete`). */
  function DeleteMessage(rs: seq<MessageRecord>, id: MessageId): Outcome<string> {
    var i := IndexOf(rs, id);
    if i < 0 then Outcome(Fail(NotFound), rs) else Outcome(Ok(DeletedMessage), RemoveAt(rs, i))
  }

  /** Deletion removes exactly the record with that id and keeps the order of the others;
      an unknown id is a 404 that changes nothing. */
  lemma DeleteMessageSpec(rs: seq<MessageRecord>, id: MessageId)
    requires UniqueIds(rs)
    ensures var o := DeleteMessage(rs, id);
      && (o.response.Fail? <==> forall j :: 0 <= j < |rs| ==> rs[j].id != id)
      && (o.response.Fail? ==> o.response.failure == NotFound && o.records == rs)
      && (o.response.Ok? ==> |o.records| == |rs| - 1 && o.response.value == DeletedMessage)
      && UniqueIds(o.records)
      && (forall r :: r in o.records <==> r in rs && r.id != id)
  {
    var o := DeleteMessage(rs, id);
    var i := IndexOf(rs, id);
    if i >= 0 {
      var t := o.records;
      assert forall j :: 0 <= j < i ==> t[j] == rs[j];
      assert forall j :: i <= j < |t| ==> t[j] == rs[j + 1];
      forall r | r in rs && r.id != id ensures r in t {
        var j :| 0 <= j < |rs| && rs[j] == r;
        if j < i { assert t[j] == r; } else { assert j != i; assert t[j - 1] == r; }
      }
      forall r | r in t ensures r in rs && r.id != id {
        var j :| 0 <= j < |t| && t[j] == r;
        if j < i { assert rs[j] == r; } else { assert rs[j + 1] == r; }
      }
    }
  }

  /** Deleting the same id twice: the second request finds nothing. */
  lemma DeleteTwiceNotFound(rs: seq<MessageRecord>, id: MessageId)
    requires UniqueIds(rs)
    ensures DeleteMessage(DeleteMessage(rs, id).records, id).response == Fail(NotFound)
  {
    DeleteMessageSpec(rs, id);
    var t := DeleteMessage(rs, id).records;
    forall j | 0 <= j < |t| ensures t[j].id != id {
      assert t[j] in t;
    }
  }

  // ---------------------------------------------------------------- dashboard counters

  datatype DashboardStats = DashboardStats(totalMessages: nat, newMessages: nat, readMessages: nat,
                                           repliedMessages: nat, archivedMessages: nat)

  /** `GET /stats`: the total and the counts for four of the seven statuses. */
  function DashboardCounts(rs: seq<MessageRecord>): DashboardStats {
    DashboardStats(|rs|, CountStatus(rs, New), CountStatus(rs, Read), CountStatus(rs, Replied), CountStatus(rs, Archived))
  }

  /** The four counts never exceed the total, and they reach it exactly when no message is
      `spam`, `sent` or `failed`: those three statuses are not reported. */
  lemma DashboardCountsBound(rs: seq<MessageRecord>)
    ensures var s := DashboardCounts(rs);
      && s.totalMessages == |rs|
      && s.newMessages + s.readMessages + s.repliedMessages + s.archivedMessages <= s.totalMessages
      && (s.newMessages + s.readMessages + s.repliedMessages + s.archivedMessages == s.totalMessages
          <==> CountStatus(rs, Spam) == 0 && CountStatus(rs, Sent) == 0 && CountStatus(rs, Failed) == 0)
  {
    StatusCountsPartition(rs);
    SumCountsAllStatuses(rs);
  }

  // ---------------------------------------------------------------- reply mail

  datatype Mail = Mail(from: string, to: string, subject: string, text: string, html: string)

  const RepliesRequired := Failure(400, "To, subject, and message are required")
  const SendFailed := Failure(500, "Failed to send email")

  /** `message.replace(/\n/g, '<br>')`. */
  function BreakLines(m: string): (r: string)
    ensures '\n' !in r
  {
    if m == [] then []
    else (if m[0] == '\n' then "<br>" else [m[0]]) + BreakLines(m[1..])
  }

  lemma {:induction false} BreakLinesLength(m: string)
    ensures |BreakLines(m)| == |m| + 3 * CountChar(m, '\n')
  {
    if m != [] {
      BreakLinesLength(m[1..]);
    }
  }

  lemma {:induction false} BreakLinesKeepsSingleLine(m: string)
    requires '\n' !in m
    ensures BreakLines(m) == m
  {
    if m != [] {
      assert '\n' !in m[1..];
      BreakLinesKeepsSingleLine(m[1..]);
    }
  }

  const HtmlOpen := "<div style=\"font-family: Arial, sans-serif; padding: 20px;\">"
  const HtmlClose := "</div>"

  /** `POST /send-email`: validation, then one delivery attempt whose outcome (`delivered`) is
      decided outside the model; `emailUser` is the `EMAIL_USER` setting. */
  function SendReplyMail(emailUser: string, to: Option<string>, subject: Option<string>,
                         message: Option<string>, delivered: bool): Response<Mail>
  {
    if !Truthy(to) || !Truthy(subject) || !Truthy(message) then Fail(RepliesRequired)
    else if !delivered then Fail(SendFailed)
    else Ok(Mail("\"Portfolio Admin\" <" + emailUser + ">", to.value, subject.value, message.value,
                 HtmlOpen + BreakLines(message.value) + HtmlClose))
  }

  /** A missing field is a 400 whatever the mailer would have done; with all fields present the
      mail goes to the given address with the text unchanged and its line breaks as `<br>`. */
  lemma SendReplyMailSpec(emailUser: string, to: Option<string>, subject: Option<string>,
                          message: Option<string>, delivered: bool)
    ensures var r := SendReplyMail(emailUser, to, subject, message, delivered);
      && (r == Fail(RepliesRequired) <==> !Truthy(to) || !Truthy(subject) || !Truthy(message))
      && (r == Fail(SendFailed) <==> Truthy(to) && Truthy(subject) && Truthy(message) && !delivered)
      && (r.Ok? ==> r.value.to == to.value && r.value.subject == subject.value && r.value.text == message.value
                    && '\n' !in r.value.html[|HtmlOpen|..|r.value.html| - |HtmlClose|])
  {
    var r := SendReplyMail(emailUser, to, subject, message, delivered);
    if r.Ok? {
      var body := BreakLines(message.value);
      assert r.value.html[|HtmlOpen|..|r.value.html| - |HtmlClose|] == body;
    }
  }

  /** The address is only checked for presence: a `to` that is not an email address is sent. */
  lemma SendReplyMailAcceptsAnyAddress()
    ensures SendReplyMail("admin", Some("x"), Some("s"), Some("m"), true).Ok?
    ensures !SchemaEmailOk("x")
  {
    SchemaEmailOkIff("x");
  }

  // ---------------------------------------------------------------- the store

  /** Appending a record with the next id keeps the ids unique and below the next one. */
  lemma AppendFresh(rs: seq<MessageRecord>, nextId: MessageId, r: MessageRecord)
    requires UniqueIds(rs) && (forall i :: 0 <= i < |rs| ==> rs[i].id < nextId) && r.id == nextId
    ensures UniqueIds(rs + [r]) && forall i :: 0 <= i < |rs + [r]| ==> (rs + [r])[i].id < nextId + 1
  {
  }

  /** The message collection behind the admin routes. `verify` stands for the token check. */
  class MessageStore {
    var records: seq<MessageRecord>
    var nextId: MessageId
    const verify: string -> bool

    ghost predicate Valid()
      reads this
    {
      UniqueIds(records) && forall i :: 0 <= i < |records| ==> records[i].id < nextId
    }

    constructor (verify: string -> bool)
      ensures records == [] && nextId == 0 && this.verify == verify
      ensures Valid()
    {
      records := [];
      nextId := 0;
      this.verify := verify;
    }

    /** `new Message(fields).save()` with the markup stripped before validation (see
        `SaveSanitizedFirst`): a fresh id; the record is stored only when it is saved, and then
        it meets the schema. */
    method Create(d: Draft, now: int) returns (r: SaveResult)
      requires Valid()
      modifies this
      ensures Valid()
      ensures r == SaveSanitizedFirst(old(nextId), now, d)
      ensures r.Saved? ==> records == old(records) + [r.record] && nextId == old(nextId) + 1
      ensures r.Saved? ==> r.record.name != "" && r.record.message != "" && SchemaEmailOk(r.record.email)
      ensures r.Invalid? ==> records == old(records) && nextId == old(nextId)
    {
      SaveSanitizedFirstValid(nextId, now, d);
      SaveSanitizedFirstStamps(nextId, now, d);
      r := SaveSanitizedFirst(nextId, now, d);
      if r.Saved? {
        AppendFresh(records, nextId, r.record);
        records := records + [r.record];
        nextId := nextId + 1;
      }
    }

    method List(token: Option<string>, q: ListQuery) returns (r: Response<Listing>)
      ensures Authenticate(token, verify).Some? ==> r == Fail(Authenticate(token, verify).value)
      ensures Authenticate(token, verify).None? ==> r == ListMessages(records, q)
    {
      var gate := Authenticate(token, verify);
      if gate.Some? {
        r := Fail(gate.value);
      } else {
        r := ListMessages(records, q);
      }
    }

    method Get(token: Option<string>, id: MessageId) returns (r: Response<MessageRecord>)
      ensures Authenticate(token, verify).Some? ==> r == Fail(Authenticate(token, verify).value)
      ensures Authenticate(token, verify).None? ==> r == GetMessage(records, id)
    {
      var gate := Authenticate(token, verify);
      if gate.Some? {
        r := Fail(gate.value);
      } else {
        r := GetMessage(records, id);
      }
    }

    /** A rejected token or a failed update leaves the collection as it was. */
    method SetStatus(token: Option<string>, id: MessageId, status: Option<string>, now: int)
      returns (r: Response<MessageRecord>)
      requires Valid()
      modifies this
      ensures Valid() && nextId == old(nextId)
      ensures Authenticate(token, verify).Some? ==>
        r == Fail(Authenticate(token, verify).value) && records == old(records)
      ensures Authenticate(token, verify).None? ==>
        r == UpdateStatus(old(records), id, status, now).response
        && records == UpdateStatus(old(records), id, status, now).records
      ensures r.Fail? ==> records == old(records)
    {
      var gate := Authenticate(token, verify);
      if gate.Some? {
        r := Fail(gate.value);
      } else {
        UpdateStatusSpec(records, id, status, now);
        var o := UpdateStatus(records, id, status, now);
        r := o.response;
        records := o.records;
      }
    }

    method Delete(token: Option<string>, id: MessageId) returns (r: Response<string>)
      requires Valid()
      modifies this
      ensures Valid() && nextId == old(nextId)
      ensures Authenticate(token, verify).Some? ==>
        r == Fail(Authenticate(token, verify).value) && records == old(records)
      ensures Authenticate(token, verify).None? ==>
        r == DeleteMessage(old(records), id).response && records == DeleteMessage(old(records), id).records
      ensures r.Fail? ==> records == old(records)
    {
      var gate := Authenticate(token, verify);
      if gate.Some? {
        r := Fail(gate.value);
      } else {
        DeleteMessageSpec(records, id);
        var o := DeleteMessage(records, id);
        r := o.response;
        records := o.records;
        forall i | 0 <= i < |records| ensures records[i].id < nextId {
          assert records[i] in records;
        }
      }
    }

    method Stats(token: Option<string>) returns (r: Response<DashboardStats>)
      ensures Authenticate(token, verify).Some? ==> r == Fail(Authenticate(token, verify).value)
      ensures Authenticate(token, verify).None? ==> r == Ok(DashboardCounts(records))
    {
      var gate := Authenticate(token, verify);
      if gate.Some? {
        r := Fail(gate.value);
      } else {
        r := Ok(DashboardCounts(records));
      }
    }

    method SendEmail(token: Option<string>, emailUser: string, to: Option<string>, subject: Option<string>,
                     message: Option<string>, delivered: bool) returns (r: Response<Mail>)
      ensures Authenticate(token, verify).Some? ==> r == Fail(Authenticate(token, verify).value)
      ensures Authenticate(token, verify).None? ==> r == SendReplyMail(emailUser, to, subject, message, delivered)
    {
      var gate := Authenticate(token, verify);
      if gate.Some? {
        r := Fail(gate.value);
      } else {
        r := SendReplyMail(emailUser, to, subject, message, delivered);
      }
    }

    /** `GET /verify`: succeeds exactly when the token passes the gate. */
    method VerifyToken(token: Option<string>) returns (r: Response<()>)
      ensures r.Ok? <==> Truthy(token) && verify(token.value)
    {
      r := Guarded(token, verify, Ok(()));
    }
  }
}
