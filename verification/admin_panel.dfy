/** The moderation page of admin.js: the list request it builds, the pagination bar, the
    table's display rules, and the handlers that move its state (current page, filter, token,
    which screen is shown) and send requests to the admin API. */
module AdminPanel {
  import opened Text
  import opened MessageModel
  import opened AdminRoutes

  // ---------------------------------------------------------------- the list request

  /** `${origin}/api/admin/messages?page=${page}&limit=50`, plus `&status=${filter}` unless the
      filter is `all`. */
  function ListUrl(origin: string, page: int, filter: string): string {
    var base := origin + "/api/admin/messages?page=" + IntToDecimal(page) + "&limit=50";
    if filter != "all" then base + "&status=" + filter else base
  }

  /** The URL always starts with the page and the fixed limit of 50, and what follows is
      `&status=<filter>` exactly when the filter is not `all`. */
  lemma ListUrlShape(origin: string, page: int, filter: string)
    ensures var base := origin + "/api/admin/messages?page=" + IntToDecimal(page) + "&limit=50";
      var url := ListUrl(origin, page, filter);
      && StartsWith(url, base)
      && (filter == "all" <==> |url| == |base|)
      && (filter != "all" ==> url[|base|..] == "&status=" + filter)
  {
  }

  /** The query the server reads from that URL. */
  function ListQueryOf(page: int, filter: string): ListQuery {
    ListQuery(Some(IntToDecimal(page)), Some("50"), if filter != "all" then Some(filter) else None)
  }

  /** The server reads back the requested page and a limit of 50. */
  lemma ListQueryReadBack(page: int, filter: string)
    requires page != 0
    ensures IntParamOr(ListQueryOf(page, filter).page, 1) == page
    ensures IntParamOr(ListQueryOf(page, filter).limit, 50) == 50
    ensures ListQueryOf(page, filter).status.Some? <==> filter != "all"
  {
    PageQueryReadBack(page, 50);
    assert IntToDecimal(50) == "50";
  }

  /** The panel's status filter changes the request but not the answer: every filter shows the
      same page of all messages. */
  lemma FilterDoesNotFilter(rs: seq<MessageRecord>, page: int, f1: string, f2: string)
    ensures ListMessages(rs, ListQueryOf(page, f1)) == ListMessages(rs, ListQueryOf(page, f2))
  {
    ListIgnoresStatusFilter(rs, ListQueryOf(page, f1), ListQueryOf(page, f2).status);
  }

  // ---------------------------------------------------------------- the pagination bar

  datatype PageItem = Prev(disabled: bool) | Number(n: int, active: bool) | Gap | Next(disabled: bool)

  /** Page `i` gets a link: the first, the last, and those within two of the current page. */
  predicate Shown(i: int, cur: int, pages: int) {
    i == 1 || i == pages || (cur - 2 <= i <= cur + 2)
  }

  /** What the loop emits for page `i`. */
  function Slot(i: int, cur: int, pages: int): seq<PageItem> {
    if Shown(i, cur, pages) then [Number(i, i == cur)]
    else if i == cur - 3 || i == cur + 3 then [Gap]
    else []
  }

  /** The items for pages `1..hi`. */
  function Window(cur: int, pages: int, hi: nat): seq<PageItem> {
    if hi == 0 then [] else Window(cur, pages, hi - 1) + Slot(hi, cur, pages)
  }

  /** The whole bar: nothing for one page or fewer, otherwise Previous, the window, Next. */
  function Controls(cur: int, pages: int): seq<PageItem> {
    if pages <= 1 then [] else [Prev(cur == 1)] + Window(cur, pages, pages) + [Next(cur == pages)]
  }

  /** `updatePagination`'s loop over the pages. */
  method PageControls(cur: int, pages: int) returns (items: seq<PageItem>)
    ensures items == Controls(cur, pages)
  {
    if pages <= 1 {
      return [];
    }
    var bar := [];
    var i := 1;
    while i <= pages
      invariant 1 <= i <= pages + 1
      invariant bar == Window(cur, pages, i - 1)
    {
      bar := bar + Slot(i, cur, pages);
      i := i + 1;
    }
    items := [Prev(cur == 1)] + bar + [Next(cur == pages)];
  }

  lemma {:induction false} WindowNumbers(cur: int, pages: int, hi: nat)
    ensures forall n, a :: Number(n, a) in Window(cur, pages, hi) <==>
      1 <= n <= hi && Shown(n, cur, pages) && a == (n == cur)
  {
    if hi > 0 {
      WindowNumbers(cur, pages, hi - 1);
    }
  }

  /** The page numbers among `items` strictly increase. */
  predicate Increasing(items: seq<PageItem>) {
    forall j, k :: 0 <= j < k < |items| && items[j].Number? && items[k].Number? ==> items[j].n < items[k].n
  }

  lemma {:induction false} WindowIncreasing(cur: int, pages: int, hi: nat)
    ensures Increasing(Window(cur, pages, hi))
  {
    if hi > 0 {
      WindowIncreasing(cur, pages, hi - 1);
      WindowNumbers(cur, pages, hi - 1);
      var w0 := Window(cur, pages, hi - 1);
      var w := Window(cur, pages, hi);
      assert forall j :: 0 <= j < |w0| ==> w[j] == w0[j];
      assert |w| <= |w0| + 1;
      forall j, k | 0 <= j < k < |w| && w[j].Number? && w[k].Number? ensures w[j].n < w[k].n {
        if k < |w0| {
          assert w[j] == w0[j] && w[k] == w0[k];
          assert w0[j].n < w0[k].n;
        } else {
          assert j < |w0|;
          assert w[j] == w0[j];
          assert w[k] == Number(hi, hi == cur);
          assert Number(w0[j].n, w0[j].active) in Window(cur, pages, hi - 1);
        }
      }
    }
  }

  lemma {:induction false} WindowGaps(cur: int, pages: int, hi: nat)
    ensures Gap in Window(cur, pages, hi) <==>
      exists i :: 1 <= i <= hi && !Shown(i, cur, pages) && (i == cur - 3 || i == cur + 3)
  {
    if hi > 0 {
      WindowGaps(cur, pages, hi - 1);
    }
  }

  /** The bar of `updatePagination`: absent for a single page; otherwise Previous (disabled
      exactly on page 1), a link for exactly the shown pages in increasing order with the
      current one active, an ellipsis exactly where a page three away is not shown, and Next
      (disabled exactly on the last page). */
  lemma ControlsSpec(cur: int, pages: int)
    ensures Controls(cur, pages) == [] <==> pages <= 1
    ensures pages > 1 ==>
      var c := Controls(cur, pages);
      var w := Window(cur, pages, pages);
      && c == [Prev(cur == 1)] + w + [Next(cur == pages)]
      && c[0] == Prev(cur == 1) && c[|c| - 1] == Next(cur == pages)
      && (forall n, a :: Number(n, a) in c <==> 1 <= n <= pages && Shown(n, cur, pages) && a == (n == cur))
      && Increasing(w)
      && (Gap in c <==> exists i :: 1 <= i <= pages && !Shown(i, cur, pages) && (i == cur - 3 || i == cur + 3))
  {
    if pages > 1 {
      WindowNumbers(cur, pages, pages);
      WindowIncreasing(cur, pages, pages);
      WindowGaps(cur, pages, pages);
    }
  }

  // ---------------------------------------------------------------- table display rules

  /** `s.length > n ? s.substring(0, n) + '...' : (s || empty)`, with an absent value falsy. */
  function Truncate(s: Option<string>, n: nat, empty: string): string {
    if s.Some? && |s.value| > n then s.value[..n] + "..."
    else if s.Some? && s.value != "" then s.value
    else empty
  }

  function DisplayMessage(m: Option<string>): string { Truncate(m, 100, "") }

  function DisplaySubject(s: Option<string>): string { Truncate(s, 50, "No subject") }

  /** A long value keeps its first `n` characters and gains `...`; a short non-empty one is
      shown as it is; an absent or empty one shows the placeholder. */
  lemma TruncateSpec(s: Option<string>, n: nat, empty: string)
    ensures var t := Truncate(s, n, empty);
      && (s.Some? && |s.value| > n ==> |t| == n + 3 && StartsWith(t, s.value[..n]) && t[n..] == "...")
      && (s.Some? && 0 < |s.value| <= n ==> t == s.value)
      && (s.None? || s.value == "" ==> t == empty)
      && |t| <= (if |empty| > n + 3 then |empty| else n + 3)
  {
  }

  lemma DisplayRules(m: Option<string>, s: Option<string>)
    ensures |DisplayMessage(m)| <= 103 && |DisplaySubject(s)| <= 53
    ensures s.None? || s == Some("") ==> DisplaySubject(s) == "No subject"
  {
    TruncateSpec(m, 100, "");
    TruncateSpec(s, 50, "No subject");
  }

  /** `msg.status || 'new'`. */
  function DisplayStatus(s: Option<string>): string {
    if s.Some? && s.value != "" then s.value else "new"
  }

  /** The labels `getStatusBadge` knows. */
  function KnownBadge(status: string): Option<string> {
    if status == "new" then Some("<span class=\"badge badge-new\">New</span>")
    else if status == "read" then Some("<span class=\"badge badge-read\">Read</span>")
    else if status == "replied" then Some("<span class=\"badge badge-replied\">Replied</span>")
    else if status == "sent" then Some("<span class=\"badge badge-replied\">Sent</span>")
    else if status == "archived" then Some("<span class=\"badge badge-archived\">Archived</span>")
    else if status == "failed" then Some("<span class=\"badge badge-danger\">Failed</span>")
    else None
  }

  const GenericBadgeOpen := "<span class=\"badge badge-secondary\">"
  const GenericBadgeClose := "</span>"

  /** `statusMap[status] || '<span class="badge badge-secondary">' + status + '</span>'`. */
  function StatusBadge(status: string): string {
    match KnownBadge(status)
    case Some(b) => b
    case None => GenericBadgeOpen + status + GenericBadgeClose
  }

  /** Six statuses have their own badge, and no two of them share one. */
  lemma KnownBadgesDistinct(a: string, b: string)
    ensures KnownBadge(a).Some? <==> a in ["new", "read", "replied", "sent", "archived", "failed"]
    ensures KnownBadge(a).Some? && KnownBadge(b).Some? && StatusBadge(a) == StatusBadge(b) ==> a == b
  {
    if KnownBadge(a).Some? && KnownBadge(b).Some? && StatusBadge(a) == StatusBadge(b) {
      // The six badges differ in length.
      assert |StatusBadge(a)| == |StatusBadge(b)|;
    }
  }

  /** The names a plain object literal inherits from `Object.prototype`: looking one of them up
      in `statusMap` finds an inherited member, which `StatusBadge` does not model. */
  predicate InheritedName(a: string) {
    a in ["constructor", "hasOwnProperty", "isPrototypeOf", "propertyIsEnumerable",
          "toLocaleString", "toString", "valueOf", "__proto__", "__defineGetter__",
          "__defineSetter__", "__lookupGetter__", "__lookupSetter__"]
  }

  /** Every other status that is not an inherited name gets the generic badge with its raw
      value inside. */
  lemma GenericBadge(a: string)
    requires KnownBadge(a).None? && !InheritedName(a)
    ensures StatusBadge(a) == GenericBadgeOpen + a + GenericBadgeClose
    ensures OccursAt(StatusBadge(a), a, |GenericBadgeOpen|)
  {
    var g := StatusBadge(a);
    assert g[|GenericBadgeOpen|..|GenericBadgeOpen| + |a|] == a;
  }

  /** Among the schema's statuses only `spam` has no badge of its own, and none of them is an
      inherited name, so stored statuses always get a string badge. */
  lemma SpamHasNoBadge(st: Status)
    ensures KnownBadge(StatusName(st)).None? <==> st == Spam
    ensures !InheritedName(StatusName(st))
  {
  }

  /** A record's status as the table shows it: a missing status is shown as `new`. */
  lemma MissingStatusShownAsNew()
    ensures StatusBadge(DisplayStatus(None)) == "<span class=\"badge badge-new\">New</span>"
    ensures StatusBadge(DisplayStatus(Some(""))) == StatusBadge("new")
  {
  }

  // ---------------------------------------------------------------- the page's state

  datatype Screen = LoginScreen | DashboardScreen

  /** The requests the page sends to the admin API, in order. */
  datatype Request =
    | LoginCall(username: string, password: string)
    | VerifyCall(token: Option<string>)
    | ListCall(url: string, token: Option<string>)
    | StatsCall(token: Option<string>)
    | StatusCall(id: MessageId, status: string, token: Option<string>)
    | DeleteCall(id: MessageId, token: Option<string>)
    | EmailCall(to: string, subject: string, message: string, token: Option<string>)

  /** The admin page: module-level `currentPage`, `totalPages`, `currentFilter` and `authToken`,
      the `adminToken` entry of local storage, the visible screen, the pagination bar and the
      log of requests sent. Every response is a parameter of the handler that receives it. */
  class Panel {
    var currentPage: int
    var totalPages: int
    var currentFilter: string
    var authToken: Option<string>
    var storedToken: Option<string>
    var screen: Screen
    var pagination: seq<PageItem>
    var sent: seq<Request>
    const origin: string

    /** Page load: the token is read from storage; with one the page verifies it first. */
    constructor (origin: string, stored: Option<string>, tokenValid: bool)
      ensures this.origin == origin && currentFilter == "all" && pagination == []
      ensures currentPage == 1 && totalPages == 1
      ensures Truthy(stored) && tokenValid ==>
        authToken == stored && storedToken == stored && screen == DashboardScreen && currentPage == 1
        && sent == [VerifyCall(stored), ListCall(ListUrl(origin, 1, "all"), stored), StatsCall(stored)]
      ensures Truthy(stored) && !tokenValid ==>
        authToken == None && storedToken == None && screen == LoginScreen && sent == [VerifyCall(stored)]
      ensures !Truthy(stored) ==> authToken == stored && storedToken == stored && screen == LoginScreen && sent == []
    {
      this.origin := origin;
      currentPage := 1;
      totalPages := 1;
      currentFilter := "all";
      authToken := stored;
      storedToken := stored;
      pagination := [];
      sent := [];
      screen := LoginScreen;
      new;
      if Truthy(stored) {
        VerifyToken(tokenValid);
      }
    }

    /** `loadMessages(page)`: without a token only the login screen is shown. */
    method LoadMessages(page: int)
      modifies this
      ensures Truthy(authToken) ==>
        currentPage == page && sent == old(sent) + [ListCall(ListUrl(origin, page, currentFilter), authToken)]
        && screen == old(screen)
      ensures !Truthy(authToken) ==> currentPage == old(currentPage) && sent == old(sent) && screen == LoginScreen
      ensures currentFilter == old(currentFilter) && authToken == old(authToken) && storedToken == old(storedToken)
      ensures totalPages == old(totalPages) && pagination == old(pagination)
    {
      if !Truthy(authToken) {
        screen := LoginScreen;
        return;
      }
      currentPage := page;
      sent := sent + [ListCall(ListUrl(origin, page, currentFilter), authToken)];
    }

    method LoadStats()
      modifies this
      ensures sent == old(sent) + [StatsCall(authToken)]
      ensures currentPage == old(currentPage) && currentFilter == old(currentFilter) && screen == old(screen)
      ensures authToken == old(authToken) && storedToken == old(storedToken) && pagination == old(pagination)
      ensures totalPages == old(totalPages)
    {
      sent := sent + [StatsCall(authToken)];
    }

    /** The answer to a list request: a 401 drops the stored token and shows the login screen
        (the in-memory token stays); a success redraws the pagination bar. */
    method OnMessages(status: nat, success: bool, pages: Option<int>)
      modifies this
      ensures status == 401 ==>
        storedToken == None && screen == LoginScreen && authToken == old(authToken)
        && pagination == old(pagination) && totalPages == old(totalPages)
      ensures status != 401 && 200 <= status < 300 && success ==> (
        storedToken == old(storedToken) && screen == old(screen)
        && (pages.None? || pages.value <= 1 ==> pagination == [] && totalPages == old(totalPages))
        && (pages.Some? && pages.value > 1 ==> pagination == Controls(currentPage, pages.value) && totalPages == pages.value))
      ensures status != 401 && !(200 <= status < 300 && success) ==> (
        storedToken == old(storedToken) && screen == old(screen)
        && pagination == old(pagination) && totalPages == old(totalPages))
      ensures currentPage == old(currentPage) && currentFilter == old(currentFilter) && sent == old(sent)
      ensures authToken == old(authToken)
    {
      if status == 401 {
        storedToken := None;
        screen := LoginScreen;
      } else if 200 <= status < 300 && success {
        UpdatePagination(pages);
      }
    }

    /** `updatePagination`: the old bar is removed; a new one is drawn for more than one page. */
    method UpdatePagination(pages: Option<int>)
      modifies this
      ensures pages.None? || pages.value <= 1 ==> pagination == [] && totalPages == old(totalPages)
      ensures pages.Some? && pages.value > 1 ==> pagination == Controls(currentPage, pages.value) && totalPages == pages.value
      ensures currentPage == old(currentPage) && currentFilter == old(currentFilter) && sent == old(sent)
      ensures authToken == old(authToken) && storedToken == old(storedToken) && screen == old(screen)
    {
      pagination := [];
      if pages.None? || pages.value <= 1 {
        return;
      }
      totalPages := pages.value;
      pagination := PageControls(currentPage, pages.value);
    }

    /** `filterMessages(status)`: remember the filter and reload from page 1. */
    method FilterMessages(status: string)
      modifies this
      ensures currentFilter == status
      ensures Truthy(authToken) ==>
        currentPage == 1 && sent == old(sent) + [ListCall(ListUrl(origin, 1, status), authToken)]
      ensures Truthy(authToken) ==> screen == old(screen)
      ensures !Truthy(authToken) ==> sent == old(sent) && screen == LoginScreen && currentPage == old(currentPage)
      ensures authToken == old(authToken) && storedToken == old(storedToken)
      ensures totalPages == old(totalPages) && pagination == old(pagination)
    {
      currentFilter := status;
      LoadMessages(1);
    }

    /** A status change from the table's buttons: the request is sent and, when the answer
        reports success, the current page and the counters are reloaded. */
    method ChangeStatus(id: MessageId, status: string, ok: bool)
      modifies this
      ensures var change := StatusCall(id, status, authToken);
        if ok && Truthy(authToken) then
          sent == old(sent) + [change, ListCall(ListUrl(origin, old(currentPage), currentFilter), authToken), StatsCall(authToken)]
        else if ok then sent == old(sent) + [change, StatsCall(authToken)]
        else sent == old(sent) + [change]
      ensures currentPage == old(currentPage) && currentFilter == old(currentFilter)
      ensures authToken == old(authToken) && storedToken == old(storedToken)
      ensures screen == if ok && !Truthy(authToken) then LoginScreen else old(screen)
      ensures totalPages == old(totalPages) && pagination == old(pagination)
    {
      sent := sent + [StatusCall(id, status, authToken)];
      if ok {
        LoadMessages(currentPage);
        LoadStats();
      }
    }

    /** `markAsReplied(id)`: set the status to `replied`. */
    method MarkAsReplied(id: MessageId, ok: bool)
      modifies this
      ensures var mark := StatusCall(id, "replied", authToken);
        if ok && Truthy(authToken) then
          sent == old(sent) + [mark, ListCall(ListUrl(origin, old(currentPage), currentFilter), authToken), StatsCall(authToken)]
        else if ok then sent == old(sent) + [mark, StatsCall(authToken)]
        else sent == old(sent) + [mark]
      ensures currentPage == old(currentPage) && currentFilter == old(currentFilter)
      ensures authToken == old(authToken) && storedToken == old(storedToken)
      ensures screen == if ok && !Truthy(authToken) then LoginScreen else old(screen)
      ensures totalPages == old(totalPages) && pagination == old(pagination)
    {
      ChangeStatus(id, "replied", ok);
    }

    /** `archiveMessage(id)`: set the status to `archived`. */
    method ArchiveMessage(id: MessageId, ok: bool)
      modifies this
      ensures |sent| > |old(sent)|
      ensures sent[|old(sent)|..] ==
        [StatusCall(id, "archived", authToken)]
        + (if ok && Truthy(authToken) then [ListCall(ListUrl(origin, old(currentPage), currentFilter), authToken)] else [])
        + (if ok then [StatsCall(authToken)] else [])
      ensures sent[..|old(sent)|] == old(sent)
      ensures currentPage == old(currentPage) && currentFilter == old(currentFilter)
      ensures authToken == old(authToken) && storedToken == old(storedToken)
      ensures screen == if ok && !Truthy(authToken) then LoginScreen else old(screen)
      ensures totalPages == old(totalPages) && pagination == old(pagination)
    {
      ChangeStatus(id, "archived", ok);
    }

    /** `deleteMessage(id)`: nothing is sent unless the admin confirms; a successful deletion
        reloads the current page and the counters. */
    method DeleteMessage(id: MessageId, confirmed: bool, ok: bool)
      modifies this
      ensures !confirmed ==> sent == old(sent)
      ensures confirmed ==> |sent| > |old(sent)| && sent[..|old(sent)| + 1] == old(sent) + [DeleteCall(id, authToken)]
      ensures confirmed && !ok ==> sent == old(sent) + [DeleteCall(id, authToken)]
      ensures confirmed && ok ==> sent[|sent| - 1] == StatsCall(authToken)
      ensures confirmed ==> (
        && sent[..|old(sent)|] == old(sent)
        && sent[|old(sent)|..] ==
          [DeleteCall(id, authToken)]
          + (if ok && Truthy(authToken) then [ListCall(ListUrl(origin, old(currentPage), currentFilter), authToken)] else [])
          + (if ok then [StatsCall(authToken)] else []))
      ensures currentPage == old(currentPage) && currentFilter == old(currentFilter)
      ensures authToken == old(authToken) && storedToken == old(storedToken)
      ensures screen == if confirmed && ok && !Truthy(authToken) then LoginScreen else old(screen)
      ensures totalPages == old(totalPages) && pagination == old(pagination)
    {
      if !confirmed {
        return;
      }
      sent := sent + [DeleteCall(id, authToken)];
      if ok {
        LoadMessages(currentPage);
        LoadStats();
      }
    }

    /** The refresh button: reload the current page and the counters. */
    method RefreshMessages()
      modifies this
      ensures Truthy(authToken) ==>
        sent == old(sent) + [ListCall(ListUrl(origin, old(currentPage), currentFilter), authToken), StatsCall(authToken)]
      ensures !Truthy(authToken) ==> sent == old(sent) + [StatsCall(authToken)] && screen == LoginScreen
      ensures Truthy(authToken) ==> screen == old(screen)
      ensures currentPage == old(currentPage) && currentFilter == old(currentFilter)
      ensures authToken == old(authToken) && storedToken == old(storedToken)
      ensures totalPages == old(totalPages) && pagination == old(pagination)
    {
      LoadMessages(currentPage);
      LoadStats();
    }

    /** The minute timer: reload the current page while the dashboard is shown. */
    method AutoRefresh()
      modifies this
      ensures old(screen) == DashboardScreen && Truthy(authToken) ==>
        sent == old(sent) + [ListCall(ListUrl(origin, old(currentPage), currentFilter), authToken)]
        && screen == DashboardScreen
      ensures old(screen) == DashboardScreen && !Truthy(authToken) ==> sent == old(sent) && screen == LoginScreen
      ensures old(screen) != DashboardScreen ==> sent == old(sent) && screen == old(screen)
      ensures currentPage == old(currentPage) && currentFilter == old(currentFilter)
      ensures authToken == old(authToken) && storedToken == old(storedToken)
      ensures totalPages == old(totalPages) && pagination == old(pagination)
    {
      if screen == DashboardScreen {
        LoadMessages(currentPage);
      }
    }

    /** `sendReply(id)`: nothing is sent without a subject and a message; the record is marked
        `replied` only after the mail request reports success. */
    method SendReply(id: MessageId, to: string, subject: string, message: string, delivered: bool, marked: bool)
      modifies this
      ensures subject == "" || message == "" ==> sent == old(sent)
      ensures subject != "" && message != "" ==>
        |sent| > |old(sent)| && sent[|old(sent)|] == EmailCall(to, subject, message, authToken)
      ensures subject != "" && message != "" && !delivered ==>
        sent == old(sent) + [EmailCall(to, subject, message, authToken)]
      ensures subject != "" && message != "" && delivered ==>
        |sent| > |old(sent)| + 1 && sent[|old(sent)| + 1] == StatusCall(id, "replied", authToken)
      ensures forall k :: |old(sent)| <= k < |sent| && sent[k].StatusCall? ==>
        delivered && k == |old(sent)| + 1 && sent[k] == StatusCall(id, "replied", authToken)
      ensures subject != "" && message != "" && delivered ==> (
        && sent[..|old(sent)|] == old(sent)
        && sent[|old(sent)|..] ==
          [EmailCall(to, subject, message, authToken), StatusCall(id, "replied", authToken)]
          + (if marked && Truthy(authToken) then [ListCall(ListUrl(origin, old(currentPage), currentFilter), authToken)] else [])
          + (if marked then [StatsCall(authToken)] else []))
      ensures currentFilter == old(currentFilter) && authToken == old(authToken) && storedToken == old(storedToken)
      ensures currentPage == old(currentPage)
      ensures screen == if subject != "" && message != "" && delivered && marked && !Truthy(authToken) then LoginScreen else old(screen)
      ensures totalPages == old(totalPages) && pagination == old(pagination)
    {
      if subject == "" || message == "" {
        return;
      }
      sent := sent + [EmailCall(to, subject, message, authToken)];
      if delivered {
        MarkAsReplied(id, marked);
      }
    }

    /** `verifyToken`, which the page calls only with a token in memory: a rejected token is
        removed from storage and from memory. */
    method VerifyToken(valid: bool)
      requires Truthy(authToken)
      modifies this
      ensures valid ==> (
        screen == DashboardScreen && authToken == old(authToken) && storedToken == old(storedToken)
        && currentPage == 1
        && sent == old(sent) + [VerifyCall(authToken), ListCall(ListUrl(origin, 1, currentFilter), authToken),
                                StatsCall(authToken)])
      ensures !valid ==> (
        authToken == None && storedToken == None && screen == LoginScreen
        && sent == old(sent) + [VerifyCall(old(authToken))] && currentPage == old(currentPage))
      ensures currentFilter == old(currentFilter) && pagination == old(pagination) && totalPages == old(totalPages)
    {
      sent := sent + [VerifyCall(authToken)];
      if valid {
        screen := DashboardScreen;
        LoadMessages(1);
        LoadStats();
      } else {
        storedToken := None;
        authToken := None;
        screen := LoginScreen;
      }
    }

    /** The login form: a reply with `success` and a token stores the token in memory and in
        storage, shows the dashboard and loads page 1 and the counters; any other reply
        changes nothing but the request log. */
    method SubmitLogin(username: string, password: string, success: bool, token: Option<string>)
      modifies this
      ensures success && Truthy(token) ==> (
        authToken == token && storedToken == token && screen == DashboardScreen && currentPage == 1
        && sent == old(sent) + [LoginCall(username, password), ListCall(ListUrl(origin, 1, currentFilter), token),
                                StatsCall(token)])
      ensures !(success && Truthy(token)) ==> (
        authToken == old(authToken) && storedToken == old(storedToken) && screen == old(screen)
        && currentPage == old(currentPage) && sent == old(sent) + [LoginCall(username, password)])
      ensures currentFilter == old(currentFilter) && pagination == old(pagination) && totalPages == old(totalPages)
    {
      sent := sent + [LoginCall(username, password)];
      if success && Truthy(token) {
        authToken := token;
        storedToken := token;
        screen := DashboardScreen;
        LoadMessages(1);
        LoadStats();
      }
    }

    /** The logout button: both copies of the token are dropped. */
    method Logout()
      modifies this
      ensures authToken == None && storedToken == None && screen == LoginScreen
      ensures sent == old(sent) && currentPage == old(currentPage) && currentFilter == old(currentFilter)
      ensures totalPages == old(totalPages) && pagination == old(pagination)
    {
      storedToken := None;
      authToken := None;
      screen := LoginScreen;
    }
  }
}
