/** jira-support-tickets.js: every open ticket of the configured Jira service
    desk queues, sorted by priority, and the menu-bar text printed for them. */
module SupportTickets {
  import opened Wrappers
  import opened Sequences
  import Strings

  // ---------------------------------------------------------------------------
  // The configuration check

  /** A value `JSON.parse` can produce. */
  datatype Json =
    | JNull
    | JBool(b: bool)
    | JNumber(n: real)
    | JString(s: string)
    | JArray(items: seq<Json>)
    | JObject(members: map<string, Json>)

  /** JavaScript truthiness of a parsed JSON value (JSON has no NaN). */
  predicate Truthy(v: Json)
  {
    match v
    case JNull => false
    case JBool(b) => b
    case JNumber(n) => n != 0.0
    case JString(s) => s != ""
    case JArray(_) => true
    case JObject(_) => true
  }

  const RequiredKeys: seq<string> := ["JIRA_API_TOKEN", "JIRA_USER_EMAIL", "JIRA_QUEUES", "JIRA_DOMAIN"]

  /** `config[key]` is truthy; on anything but an object the member is undefined. */
  predicate Provides(config: Json, key: string)
  {
    config.JObject? && key in config.members && Truthy(config.members[key])
  }

  /** `keys.some(key => !config[key])`. */
  function SomeKeyFalsy(config: Json, keys: seq<string>): (r: bool)
    ensures r <==> exists i :: 0 <= i < |keys| && !Provides(config, keys[i])
  {
    if keys == [] then false
    else if !Provides(config, keys[0]) then true
    else
      assert forall i :: 0 < i < |keys| ==> keys[i] == keys[1..][i - 1];
      SomeKeyFalsy(config, keys[1..])
  }

  /** How `readJiraConfig` ends for a parsed file: reading a member of `null`
      throws a TypeError, reported as an error reading the file. */
  datatype ConfigCheck = ReadError | MissingKeys | Accepted

  function CheckConfig(config: Json): ConfigCheck
  {
    if config.JNull? then ReadError
    else if SomeKeyFalsy(config, RequiredKeys) then MissingKeys
    else Accepted
  }

  /** The configuration is accepted exactly when it is an object whose four
      required members are all present and truthy. */
  lemma ConfigAccepted(config: Json)
    ensures CheckConfig(config) == Accepted <==>
      config.JObject? && forall k :: k in RequiredKeys ==> k in config.members && Truthy(config.members[k])
  {
    if config.JObject? && forall k :: k in RequiredKeys ==> k in config.members && Truthy(config.members[k]) {
      forall i | 0 <= i < |RequiredKeys| ensures Provides(config, RequiredKeys[i]) {
        assert RequiredKeys[i] in RequiredKeys;
      }
    }
  }

  /** An empty queue list is truthy, so it passes the check; an empty token
      does not. */
  lemma EmptyQueueListAccepted()
    ensures CheckConfig(JObject(map["JIRA_API_TOKEN" := JString("t"), "JIRA_USER_EMAIL" := JString("e"),
      "JIRA_QUEUES" := JArray([]), "JIRA_DOMAIN" := JString("d")])) == Accepted
    ensures CheckConfig(JObject(map["JIRA_API_TOKEN" := JString(""), "JIRA_USER_EMAIL" := JString("e"),
      "JIRA_QUEUES" := JArray([JNumber(18.0)]), "JIRA_DOMAIN" := JString("d")])) == MissingKeys
  {
    var good := JObject(map["JIRA_API_TOKEN" := JString("t"), "JIRA_USER_EMAIL" := JString("e"),
      "JIRA_QUEUES" := JArray([]), "JIRA_DOMAIN" := JString("d")]);
    ConfigAccepted(good);
    var bad := JObject(map["JIRA_API_TOKEN" := JString(""), "JIRA_USER_EMAIL" := JString("e"),
      "JIRA_QUEUES" := JArray([JNumber(18.0)]), "JIRA_DOMAIN" := JString("d")]);
    assert !Provides(bad, RequiredKeys[0]);
  }

  // ---------------------------------------------------------------------------
  // Colours

  /** `pick_hex_colour`: green for no tickets, orange below four, red otherwise. */
  function PickHexColour(size: int): (c: string)
    ensures c == "#02A61E" <==> size == 0
    ensures c == "#FC8900" <==> size != 0 && size < 4
    ensures c == "#FF0000" <==> size >= 4
  {
    if size == 0 then "#02A61E" else if size < 4 then "#FC8900" else "#FF0000"
  }

  const Colors: map<string, string> := map[
    "Solution in Development" := "blue",
    "Investigation in Progress" := "blue",
    "Waiting for Investigation" := "gray",
    "Blocked" := "blue",
    "Solution Development Done" := "green",
    "Pending response" := "green",
    "Scheduled to Development" := "green"]

  /** `getColor`: the colour of a known status, "red" for any other. */
  function GetColor(status: string): (c: string)
    ensures c in {"blue", "gray", "green", "red"}
    ensures status in Colors ==> c == Colors[status]
  {
    if status in Colors then Colors[status] else "red"
  }

  /** No known status is red, so red marks exactly the unknown statuses. */
  lemma RedIffUnknownStatus(status: string)
    ensures GetColor(status) == "red" <==> status !in Colors
  {
  }

  // ---------------------------------------------------------------------------
  // timeSince: the unit and the value handed to Intl.RelativeTimeFormat

  datatype TimeUnit = Second | Minute | Hour | Day

  function UnitMs(unit: TimeUnit): nat
  {
    match unit
    case Second => 1000
    case Minute => 60000
    case Hour => 3600000
    case Day => 86400000
  }

  /** `timeSince` given the elapsed milliseconds: each unit is the floor of the
      previous one divided by its size, and the first unit whose count stays
      below the next unit's size is used, negated. */
  function TimeSince(diffMs: int): (int, TimeUnit)
  {
    var seconds := diffMs / 1000;
    var minutes := seconds / 60;
    var hours := minutes / 60;
    var days := hours / 24;
    if seconds < 60 then (-seconds, Second)
    else if minutes < 60 then (-minutes, Minute)
    else if hours < 24 then (-hours, Hour)
    else (-days, Day)
  }

  /** The unit chosen is the largest one not exceeding the elapsed time (seconds
      for anything under a minute, negative times included), and the value is
      minus the elapsed time counted in whole units of it, rounded down. */
  lemma TimeSinceUnit(diffMs: int)
    ensures TimeSince(diffMs).0 == -(diffMs / UnitMs(TimeSince(diffMs).1))
    ensures TimeSince(diffMs).1 == Second <==> diffMs < 60000
    ensures TimeSince(diffMs).1 == Minute <==> 60000 <= diffMs < 3600000
    ensures TimeSince(diffMs).1 == Hour <==> 3600000 <= diffMs < 86400000
    ensures TimeSince(diffMs).1 == Day <==> 86400000 <= diffMs
  {
    var seconds := diffMs / 1000;
    var minutes := seconds / 60;
    var hours := minutes / 60;
    assert minutes == diffMs / 60000;
    assert hours == diffMs / 3600000;
    assert hours / 24 == diffMs / 86400000;
  }

  // ---------------------------------------------------------------------------
  // Fetching the queues

  datatype Person = Person(displayName: string)
  datatype Fields = Fields(
    created: string,
    assignee: Option<Person>,
    reporter: Option<Person>,
    priorityId: int,
    statusName: string,
    summary: string)
  datatype Issue = Issue(key: string, id: string, fields: Fields)

  /** One page of a queue's issues, and whether it is the last one. */
  datatype Page = Page(values: seq<Issue>, isLastPage: bool)
  /** The answer to one request: `response.ok` with its decoded body, or not. */
  datatype PageResponse = NotOk | Ok(page: Page)

  /** The end of a fetch: the items gathered, a failed response (the script
      exits with ":x: Error: fetching data"), or responses that end before a
      last page, which the model cannot follow further. */
  datatype Fetch<T> = Fetched(items: seq<T>) | FetchError | Unfinished

  function Prepend<T>(xs: seq<T>, f: Fetch<T>): Fetch<T>
  {
    match f
    case Fetched(ys) => Fetched(xs + ys)
    case _ => f
  }

  lemma PrependPrepend<T>(xs: seq<T>, ys: seq<T>, f: Fetch<T>)
    ensures Prepend(xs, Prepend(ys, f)) == Prepend(xs + ys, f)
  {
    if f.Fetched? {
      assert xs + (ys + f.items) == (xs + ys) + f.items;
    }
  }

  /** What `fetchAllOpenTickets` gathers from the successive responses to its
      requests. */
  function Accumulate(pages: seq<PageResponse>): Fetch<Issue>
  {
    if pages == [] then Unfinished
    else match pages[0]
      case NotOk => FetchError
      case Ok(page) =>
        if page.isLastPage then Fetched(page.values) else Prepend(page.values, Accumulate(pages[1..]))
  }

  /** The `values` of each response (none for a failed one). */
  function PageValues(pages: seq<PageResponse>): seq<seq<Issue>>
  {
    if pages == [] then [] else [if pages[0].Ok? then pages[0].page.values else []] + PageValues(pages[1..])
  }

  /** When every response up to the k-th succeeds and the k-th is the first last
      page, the queue's issues are the pages' values concatenated in order. */
  lemma {:induction false} AccumulateLastPage(pages: seq<PageResponse>, k: nat)
    requires k < |pages|
    requires forall j :: 0 <= j < k ==> pages[j].Ok? && !pages[j].page.isLastPage
    requires pages[k].Ok? && pages[k].page.isLastPage
    ensures Accumulate(pages) == Fetched(Flatten(PageValues(pages[..k + 1])))
  {
    var head := PageValues(pages[..k + 1]);
    assert head == [pages[0].page.values] + PageValues(pages[..k + 1][1..]);
    if k == 0 {
      assert PageValues(pages[..k + 1][1..]) == [];
      assert Flatten(head) == pages[0].page.values + Flatten([]);
    } else {
      AccumulateLastPage(pages[1..], k - 1);
      assert pages[..k + 1][1..] == pages[1..][..k];
    }
  }

  /** A failed response before any last page ends the whole fetch in error. */
  lemma {:induction false} AccumulateFailure(pages: seq<PageResponse>, k: nat)
    requires k < |pages|
    requires forall j :: 0 <= j < k ==> pages[j].Ok? && !pages[j].page.isLastPage
    requires pages[k].NotOk?
    ensures Accumulate(pages) == FetchError
  {
    if k > 0 {
      AccumulateFailure(pages[1..], k - 1);
    }
  }

  /** `fetchAllOpenTickets`: requests page after page until one says it is the
      last, concatenating their values; `responses` are the answers to those
      requests in order. */
  method FetchAllOpenTickets(responses: seq<PageResponse>) returns (r: Fetch<Issue>)
    ensures r == Accumulate(responses)
  {
    var isLastPage := false;
    var totalIssues: seq<Issue> := [];
    var next := 0;
    while !isLastPage
      invariant next <= |responses|
      invariant !isLastPage ==> Prepend(totalIssues, Accumulate(responses[next..])) == Accumulate(responses)
      invariant isLastPage ==> Fetched(totalIssues) == Accumulate(responses)
      decreases |responses| - next
    {
      if next == |responses| {
        return Unfinished;
      }
      var response := responses[next];
      if response.NotOk? {
        return FetchError;
      }
      var rest := responses[next..];
      assert rest[1..] == responses[next + 1..];
      PrependPrepend(totalIssues, response.page.values, Accumulate(rest[1..]));
      totalIssues := totalIssues + response.page.values;
      isLastPage := response.page.isLastPage;
      next := next + 1;
    }
    return Fetched(totalIssues);
  }

  // ---------------------------------------------------------------------------
  // fetchAllTickets

  /** The record the script keeps for each issue. */
  datatype Ticket = Ticket(
    created: string,
    assignee: Option<string>,
    reporter: Option<string>,
    priority: int,
    icon: Option<string>,
    status: string,
    summary: string,
    key: string,
    id: string,
    url: string)

  const Priorities: map<int, string> := map[
    1 := ":arrow_double_up:",
    2 := ":arrow_up_small:",
    3 := ":arrow_up_down:",
    4 := ":arrow_down_small:",
    5 := ":arrow_double_down:"]

  function DisplayName(p: Option<Person>): Option<string>
  {
    match p
    case None => None
    case Some(person) => Some(person.displayName)
  }

  /** One ticket record: the issue's link is the domain's browse page for its
      key, and it has a priority icon exactly for priorities 1 to 5. */
  function ToTicket(domain: string, issue: Issue): (t: Ticket)
    ensures t.url == domain + "/browse/" + issue.key
    ensures t.icon.Some? <==> 1 <= issue.fields.priorityId <= 5
    ensures t.priority == issue.fields.priorityId && t.key == issue.key
  {
    var f := issue.fields;
    Ticket(f.created, DisplayName(f.assignee), DisplayName(f.reporter), f.priorityId,
      if f.priorityId in Priorities then Some(Priorities[f.priorityId]) else None,
      f.statusName, f.summary, issue.key, issue.id, domain + "/browse/" + issue.key)
  }

  /** `res.forEach(ticket => tickets.push(...))`: one record per issue, in order. */
  function ToTickets(domain: string, issues: seq<Issue>): (r: seq<Ticket>)
    ensures |r| == |issues|
    ensures forall i :: 0 <= i < |issues| ==> r[i] == ToTicket(domain, issues[i])
  {
    if issues == [] then [] else [ToTicket(domain, issues[0])] + ToTickets(domain, issues[1..])
  }

  /** One queue's outcome: its issues as ticket records, or its failure. */
  function QueueTickets(domain: string, responses: seq<PageResponse>): Fetch<Ticket>
  {
    match Accumulate(responses)
    case Fetched(issues) => Fetched(ToTickets(domain, issues))
    case FetchError => FetchError
    case Unfinished => Unfinished
  }

  function QueueResults(domain: string, queues: seq<seq<PageResponse>>): (r: seq<Fetch<Ticket>>)
    ensures |r| == |queues|
    ensures forall i :: 0 <= i < |queues| ==> r[i] == QueueTickets(domain, queues[i])
  {
    if queues == [] then [] else [QueueTickets(domain, queues[0])] + QueueResults(domain, queues[1..])
  }

  /** The outcomes of the queues in order, concatenated: the first queue that
      does not fetch decides the outcome. */
  function Gather<T>(results: seq<Fetch<T>>): Fetch<T>
  {
    if results == [] then Fetched([])
    else match results[0]
      case Fetched(items) => Prepend(items, Gather(results[1..]))
      case FetchError => FetchError
      case Unfinished => Unfinished
  }

  /** Appending a fetched outcome appends its items. */
  lemma {:induction false} GatherAppend<T>(results: seq<Fetch<T>>, last: Fetch<T>)
    requires Gather(results).Fetched? && last.Fetched?
    ensures Gather(results + [last]) == Fetched(Gather(results).items + last.items)
  {
    var longer := results + [last];
    if results == [] {
      assert longer[1..] == [];
      assert last.items + [] == last.items;
    } else {
      assert longer[0] == results[0] && longer[1..] == results[1..] + [last];
      GatherAppend(results[1..], last);
      var head, rest := results[0].items, Gather(results[1..]).items;
      assert head + (rest + last.items) == (head + rest) + last.items;
    }
  }

  /** A failed outcome after fetched ones is the outcome of the whole list. */
  lemma {:induction false} GatherFailure<T>(results: seq<Fetch<T>>, last: Fetch<T>)
    requires Gather(results).Fetched? && !last.Fetched?
    ensures Gather(results + [last]) == last
  {
    var longer := results + [last];
    if results == [] {
      assert longer[1..] == [];
    } else {
      assert longer[0] == results[0] && longer[1..] == results[1..] + [last];
      GatherFailure(results[1..], last);
    }
  }

  lemma GatherStep<T>(results: seq<Fetch<T>>, q: nat)
    requires q < |results|
    ensures Gather(results[q..]) ==
      if results[q].Fetched? then Prepend(results[q].items, Gather(results[q + 1..])) else results[q]
  {
    assert results[q..][1..] == results[q + 1..];
  }

  /** What `fetchAllTickets` gathers: each queue's tickets in turn. */
  function AllTickets(domain: string, queues: seq<seq<PageResponse>>): Fetch<Ticket>
  {
    Gather(QueueResults(domain, queues))
  }

  /** Appending a queue appends its tickets when it fetches, and otherwise makes
      its failure the outcome. */
  lemma AllTicketsAppend(domain: string, queues: seq<seq<PageResponse>>, q: seq<PageResponse>)
    requires AllTickets(domain, queues).Fetched?
    ensures QueueTickets(domain, q).Fetched? ==>
      AllTickets(domain, queues + [q]) == Fetched(AllTickets(domain, queues).items + ToTickets(domain, Accumulate(q).items))
    ensures Accumulate(q).FetchError? ==> AllTickets(domain, queues + [q]) == FetchError
    ensures Accumulate(q).Unfinished? ==> AllTickets(domain, queues + [q]) == Unfinished
  {
    var rs := QueueResults(domain, queues);
    assert QueueResults(domain, queues + [q]) == rs + [QueueTickets(domain, q)];
    if QueueTickets(domain, q).Fetched? {
      GatherAppend(rs, QueueTickets(domain, q));
    } else {
      GatherFailure(rs, QueueTickets(domain, q));
    }
  }

  /** `fetchAllTickets`: the queues' tickets concatenated in queue order;
      `queues` holds the responses each queue's requests receive. */
  method FetchAllTickets(domain: string, queues: seq<seq<PageResponse>>) returns (r: Fetch<Ticket>)
    ensures r == AllTickets(domain, queues)
  {
    ghost var results := QueueResults(domain, queues);
    var tickets: seq<Ticket> := [];
    for q := 0 to |queues|
      invariant Prepend(tickets, Gather(results[q..])) == Gather(results)
    {
      var res := FetchAllOpenTickets(queues[q]);
      GatherStep(results, q);
      assert results[q] == QueueTickets(domain, queues[q]);
      if res.FetchError? {
        return FetchError;
      } else if res.Unfinished? {
        return Unfinished;
      }
      PrependPrepend(tickets, ToTickets(domain, res.items), Gather(results[q + 1..]));
      tickets := tickets + ToTickets(domain, res.items);
    }
    assert results[|queues|..] == [];
    return Fetched(tickets);
  }

  // ---------------------------------------------------------------------------
  // Sorting by priority

  /** `Array.prototype.sort` with `(a, b) => a.priority - b.priority`, which is
      stable: a ticket moves in front of the ones with a larger priority only. */
  function Insert(s: seq<Ticket>, x: Ticket): seq<Ticket>
  {
    if s == [] then [x]
    else if x.priority < s[0].priority then [x] + s
    else [s[0]] + Insert(s[1..], x)
  }

  /** Insertion sort: each ticket in turn is inserted into the sorted prefix. */
  function SortByPriority(s: seq<Ticket>): seq<Ticket>
  {
    if s == [] then [] else Insert(SortByPriority(s[..|s| - 1]), s[|s| - 1])
  }

  predicate Sorted(s: seq<Ticket>)
  {
    forall i, j :: 0 <= i < j < |s| ==> s[i].priority <= s[j].priority
  }

  /** The tickets of one priority, in order. */
  function WithPriority(s: seq<Ticket>, p: int): seq<Ticket>
  {
    if s == [] then []
    else (if s[0].priority == p then [s[0]] else []) + WithPriority(s[1..], p)
  }

  /** Inserting keeps every ticket and adds the new one. */
  lemma {:induction false} InsertMultiset(s: seq<Ticket>, x: Ticket)
    ensures multiset(Insert(s, x)) == multiset(s) + multiset{x}
  {
    if s != [] && x.priority >= s[0].priority {
      InsertMultiset(s[1..], x);
      assert s == [s[0]] + s[1..];
    }
  }

  /** A lower bound on the priorities of a sequence and of the new ticket is
      one on the result. */
  lemma {:induction false} InsertLowerBound(s: seq<Ticket>, x: Ticket, b: int)
    requires forall i :: 0 <= i < |s| ==> s[i].priority >= b
    requires x.priority >= b
    ensures |Insert(s, x)| == |s| + 1
    ensures forall i :: 0 <= i < |Insert(s, x)| ==> Insert(s, x)[i].priority >= b
  {
    if s != [] && x.priority >= s[0].priority {
      InsertLowerBound(s[1..], x, b);
    }
  }

  lemma {:induction false} InsertSorted(s: seq<Ticket>, x: Ticket)
    requires Sorted(s)
    ensures Sorted(Insert(s, x))
    ensures multiset(Insert(s, x)) == multiset(s) + multiset{x}
  {
    InsertMultiset(s, x);
    if s != [] && x.priority >= s[0].priority {
      InsertSorted(s[1..], x);
      InsertLowerBound(s[1..], x, s[0].priority);
    }
  }

  lemma {:induction false} WithPriorityOfLarger(s: seq<Ticket>, p: int)
    requires forall i :: 0 <= i < |s| ==> s[i].priority > p
    ensures WithPriority(s, p) == []
  {
    if s != [] {
      WithPriorityOfLarger(s[1..], p);
    }
  }

  lemma WithPriorityCons(y: Ticket, t: seq<Ticket>, p: int)
    ensures WithPriority([y] + t, p) == (if y.priority == p then [y] else []) + WithPriority(t, p)
  {
    assert ([y] + t)[0] == y && ([y] + t)[1..] == t;
  }

  /** Inserting into a sorted sequence puts the new ticket after every ticket
      of the same priority. */
  lemma {:induction false} InsertStable(s: seq<Ticket>, x: Ticket, p: int)
    requires Sorted(s)
    ensures WithPriority(Insert(s, x), p) == WithPriority(s, p) + (if x.priority == p then [x] else [])
  {
    if s == [] {
      WithPriorityCons(x, [], p);
    } else if x.priority < s[0].priority {
      WithPriorityCons(x, s, p);
      if x.priority == p {
        WithPriorityOfLarger(s, p);
      }
    } else {
      var t := Insert(s[1..], x);
      InsertStable(s[1..], x, p);
      WithPriorityCons(s[0], t, p);
      WithPriorityCons(s[0], s[1..], p);
      assert [s[0]] + s[1..] == s;
    }
  }

  lemma {:induction false} WithPriorityAppend(s: seq<Ticket>, x: Ticket, p: int)
    ensures WithPriority(s + [x], p) == WithPriority(s, p) + (if x.priority == p then [x] else [])
  {
    if s != [] {
      assert (s + [x])[1..] == s[1..] + [x];
      WithPriorityAppend(s[1..], x, p);
    } else {
      assert WithPriority([x], p) == (if x.priority == p then [x] else []) + WithPriority([], p);
    }
  }

  /** The sort puts the tickets in ascending priority, keeps every ticket the
      same number of times, and keeps the tickets of each priority in their
      original order. */
  lemma {:induction false} SortByPriorityCorrect(s: seq<Ticket>, p: int)
    ensures Sorted(SortByPriority(s))
    ensures multiset(SortByPriority(s)) == multiset(s)
    ensures WithPriority(SortByPriority(s), p) == WithPriority(s, p)
  {
    if s != [] {
      var init, x := s[..|s| - 1], s[|s| - 1];
      assert s == init + [x];
      SortByPriorityCorrect(init, p);
      InsertSorted(SortByPriority(init), x);
      InsertStable(SortByPriority(init), x, p);
      WithPriorityAppend(init, x, p);
    }
  }

  lemma SortByPrioritySorted(s: seq<Ticket>)
    ensures Sorted(SortByPriority(s))
  {
    SortByPriorityCorrect(s, 0);
  }

  /** Where an insertion lands in a sorted sequence: after the tickets whose
      priority is at most the new one's. */
  lemma {:induction false} InsertAt(s: seq<Ticket>, x: Ticket, j: nat)
    requires Sorted(s) && j <= |s|
    requires j > 0 ==> s[j - 1].priority <= x.priority
    requires forall m :: j <= m < |s| ==> s[m].priority > x.priority
    ensures Insert(s, x) == s[..j] + [x] + s[j..]
  {
    if j > 0 {
      assert s[0].priority <= s[j - 1].priority;
      InsertAt(s[1..], x, j - 1);
      ConsSplice(s, x, j);
    } else if s != [] {
      assert s[0].priority > x.priority;
    }
  }

  /** Moves `a[i]` left past the larger priorities in front of it, one swap
      at a time. */
  method InsertLast(a: array<Ticket>, i: nat)
    requires i < a.Length && Sorted(a[..i])
    modifies a
    ensures a[..i + 1] == Insert(old(a[..i]), old(a[i]))
    ensures a[i + 1..] == old(a[i + 1..])
  {
    ghost var sorted := a[..i];
    ghost var after := a[i + 1..];
    var x := a[i];
    var j := i;
    assert a[..i + 1] == sorted[..j] + [x] + sorted[j..];
    while j > 0 && a[j - 1].priority > x.priority
      invariant 0 <= j <= i
      invariant a[..i + 1] == sorted[..j] + [x] + sorted[j..]
      invariant a[i + 1..] == after
      invariant forall m :: j <= m < i ==> sorted[m].priority > x.priority
    {
      ghost var before := a[..i + 1];
      assert before[j - 1] == sorted[j - 1] && before[j] == x;
      a[j] := a[j - 1];
      a[j - 1] := x;
      assert a[..i + 1] == before[j - 1 := x][j := sorted[j - 1]];
      SwapStep(sorted, x, j);
      j := j - 1;
    }
    InsertAt(sorted, x, j);
  }

  /** `tickets.sort(...)` in place, as an insertion sort. */
  method SortTickets(a: array<Ticket>)
    modifies a
    ensures a[..] == SortByPriority(old(a[..]))
  {
    ghost var input := a[..];
    for i := 0 to a.Length
      invariant a[..i] == SortByPriority(input[..i])
      invariant a[i..] == input[i..]
    {
      SortByPrioritySorted(input[..i]);
      assert a[i] == input[i];
      InsertLast(a, i);
      assert input[..i + 1][..i] == input[..i];
      assert SortByPriority(input[..i + 1]) == Insert(SortByPriority(input[..i]), input[i]);
    }
    assert input[..a.Length] == input;
  }

  // ---------------------------------------------------------------------------
  // The printed menu

  /** How a missing value prints inside a template literal. */
  function Text(o: Option<string>): string
  {
    match o
    case None => "undefined"
    case Some(s) => s
  }

  function AssignedTo(t: Ticket): string
  {
    if t.assignee.Some? && t.assignee.value != "" then "Assignted to " + t.assignee.value else "Unassigned"
  }

  function TitleLine(t: Ticket): string
  {
    Text(t.icon) + " " + t.key + " - " + t.summary + " | href=" + t.url + " size=16"
  }

  /** `elapsedMs` is the time since a creation date, `relative` the text
      Intl.RelativeTimeFormat makes of a value and a unit. */
  function SubtitleLine(t: Ticket, elapsedMs: string -> int, relative: (int, TimeUnit) -> string): string
  {
    var (value, unit) := TimeSince(elapsedMs(t.created));
    t.status + ". " + AssignedTo(t) + ", reported by " + Text(t.reporter) + " " + relative(value, unit)
      + " | color=" + GetColor(t.status) + " size=12"
  }

  /** The three lines printed for one ticket. */
  function Block(t: Ticket, elapsedMs: string -> int, relative: (int, TimeUnit) -> string): (b: seq<string>)
    ensures |b| == 3 && b[2] == "---"
  {
    [TitleLine(t), SubtitleLine(t, elapsedMs, relative), "---"]
  }

  function BlockOf(elapsedMs: string -> int, relative: (int, TimeUnit) -> string): Ticket -> seq<string>
  {
    t => Block(t, elapsedMs, relative)
  }

  function Blocks(ts: seq<Ticket>, elapsedMs: string -> int, relative: (int, TimeUnit) -> string): seq<string>
  {
    FlatMap(ts, BlockOf(elapsedMs, relative))
  }

  function SummaryLine(n: nat): string
  {
    Strings.NatToString(n) + " :ticket: | size=12 color=" + PickHexColour(n)
  }

  /** Everything `main` prints once the tickets are gathered. */
  function Render(tickets: seq<Ticket>, elapsedMs: string -> int, relative: (int, TimeUnit) -> string): seq<string>
  {
    [SummaryLine(|tickets|), "---"]
      + if |tickets| == 0 then ["No :ticket: to solve :tada:"]
        else Blocks(SortByPriority(tickets), elapsedMs, relative)
  }

  /** With no tickets the output is the green summary, a separator and the
      celebration line. */
  lemma RenderEmpty(elapsedMs: string -> int, relative: (int, TimeUnit) -> string)
    ensures Render([], elapsedMs, relative) == [SummaryLine(0), "---", "No :ticket: to solve :tada:"]
    ensures SummaryLine(0) == "0" + " :ticket: | size=12 color=" + "#02A61E"
  {
    assert Strings.NatToString(0) == "0";
    assert PickHexColour(0) == "#02A61E";
  }

  /** The blocks are three lines per ticket: lines 3i, 3i + 1 and 3i + 2 are
      the title, the subtitle and a separator of the i-th ticket. */
  lemma BlocksLayout(ts: seq<Ticket>, elapsedMs: string -> int, relative: (int, TimeUnit) -> string, i: nat)
    requires i < |ts|
    ensures |Blocks(ts, elapsedMs, relative)| == 3 * |ts| && 3 * i + 3 <= 3 * |ts|
    ensures Blocks(ts, elapsedMs, relative)[3 * i..3 * i + 3] ==
      [TitleLine(ts[i]), SubtitleLine(ts[i], elapsedMs, relative), "---"]
  {
    var f := BlockOf(elapsedMs, relative);
    assert forall t :: f(t) == Block(t, elapsedMs, relative);
    FlatMapUniform(ts, f, 3, i);
  }

  /** With tickets, the summary and a separator are followed by the blocks of
      the tickets in priority order, three lines each (see BlocksLayout). */
  lemma RenderLayout(tickets: seq<Ticket>, elapsedMs: string -> int, relative: (int, TimeUnit) -> string)
    requires tickets != []
    ensures |SortByPriority(tickets)| == |tickets|
    ensures Render(tickets, elapsedMs, relative) == [SummaryLine(|tickets|), "---"] + Blocks(SortByPriority(tickets), elapsedMs, relative)
    ensures |Blocks(SortByPriority(tickets), elapsedMs, relative)| == 3 * |tickets|
  {
    SortByPriorityCorrect(tickets, 0);
    assert |multiset(SortByPriority(tickets))| == |multiset(tickets)|;
    BlocksLayout(SortByPriority(tickets), elapsedMs, relative, 0);
  }
}
