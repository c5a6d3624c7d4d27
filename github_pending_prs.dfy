/** github-pending-prs.py: the open pull requests a user authored, each reduced to
    a flat record (CI state, blocked flag, and who approved, commented, asked for
    changes or is still requested), and the menu-bar text printed for them.
    The GraphQL response arrives already decoded; the clock is a parameter. */
module PendingPrs {
  import opened Wrappers
  import opened Strings
  import opened Sequences
  import opened TimeDelta
  import opened GraphQl
  import HealthColour

  // ---------------------------------------------------------------------------
  // The node of one search edge. An `Option` field is a value that may be null
  // where the script tests for it; the reply around the nodes is `GraphQl`'s.

  datatype Rollup = Rollup(state: string)
  datatype CommitNode = CommitNode(statusCheckRollup: Option<Rollup>)
  /** A submitted review as the reply gives it: `author` is null for a review
      whose author account was deleted. */
  datatype ReviewNode = ReviewNode(author: Option<string>, state: string)
  /** A submitted review whose author is known: `author.login` and `state`. */
  datatype Review = Review(authorLogin: string, state: string)
  /** `requestedReviewer` of a review request: null, an object without a login
      (a team: the query only asks for the login `... on User`, so the object is
      empty and falsy), or a user. */
  datatype RequestedReviewer = NoReviewer | NonUserReviewer | UserReviewer(login: string)
  datatype PullRequest = PullRequest(
    repository: string,          // repository.nameWithOwner
    title: string,
    url: string,
    createdAt: string,
    isDraft: bool,
    mergeStateStatus: string,
    commits: seq<CommitNode>,    // commits(last: 1).nodes
    reviews: seq<ReviewNode>,    // reviews(last: 10).nodes
    reviewRequests: seq<RequestedReviewer>)

  /** One entry of the list `get_pending_requests` returns. */
  datatype PendingRequest = PendingRequest(
    title: string,
    url: string,
    date: string,
    repository: string,
    pending: seq<string>,
    approved: seq<string>,
    comments: seq<string>,
    changesRequested: seq<string>,
    isDraft: bool,
    isBlocked: bool,
    ciState: Option<string>)

  // ---------------------------------------------------------------------------
  // parse_date (Python 3: `/` is true division)

  /** `parse_date` given the elapsed time instead of the timestamp and `now()`.
      `hours` and `minutes` are floats here, so `hours > 0` holds for any
      positive number of seconds and the minute and second branches never run. */
  function ParseDate(e: Elapsed): string
  {
    var days := e.days;
    var hours: real := e.seconds as real / 3600.0;
    var minutes: real := (e.seconds % 3600) as real / 60.0;
    var seconds := e.seconds % 3600 % 60;
    if days > 0 then IntToString(days) + " day" + (if days >= 2 then "s" else "")
    else if hours > 0.0 then IntToString(hours.Floor) + " hour" + (if hours >= 2.0 then "s" else "")
    else if minutes > 0.0 then IntToString(minutes.Floor) + " minute" + (if minutes >= 2.0 then "s" else "")
    else if seconds > 0 then IntToString(seconds) + " second" + (if seconds >= 2 then "s" else "")
    else ""
  }

  /** The three outcomes of ParseDate: whole days when there is at least one day,
      otherwise whole hours (rounded down, so "0 hour" under an hour) for any
      positive number of seconds, otherwise nothing. */
  lemma ParseDateCases(e: Elapsed)
    ensures e.days > 0 ==>
      ParseDate(e) == IntToString(e.days) + " day" + (if e.days >= 2 then "s" else "")
    ensures e.days <= 0 && e.seconds > 0 ==>
      ParseDate(e) == NatToString(e.seconds / 3600) + " hour" + (if e.seconds >= 7200 then "s" else "")
    ensures e.days <= 0 && e.seconds == 0 ==> ParseDate(e) == ""
  {
    var hours: real := e.seconds as real / 3600.0;
    var q, r := e.seconds / 3600, e.seconds % 3600;
    assert e.seconds == 3600 * q + r && 0 <= r < 3600;
    assert hours == q as real + r as real / 3600.0;
    assert hours.Floor == q;
  }

  /** Ninety seconds read as "0 hour": the minute branch is unreachable. */
  lemma ParseDateUnderAnHour()
    ensures ParseDate(Elapsed(0, 90)) == "0 hour"
  {
    ParseDateCases(Elapsed(0, 90));
  }

  // ---------------------------------------------------------------------------
  // Reviewer categorisation

  /** The logins of the review requests whose `requestedReviewer` is a user, in
      request order, duplicates kept. */
  function RequestedLogins(requests: seq<RequestedReviewer>): seq<string>
  {
    if requests == [] then []
    else
      var last := requests[|requests| - 1];
      RequestedLogins(requests[..|requests| - 1]) + (if last.UserReviewer? then [last.login] else [])
  }

  /** The logins of the reviews in `state`, in review order, leaving out those in
      `excluded`. */
  function QualifyingLogins(reviews: seq<Review>, state: string, excluded: seq<string>): seq<string>
  {
    if reviews == [] then []
    else
      var last := reviews[|reviews| - 1];
      QualifyingLogins(reviews[..|reviews| - 1], state, excluded)
        + (if last.state == state && last.authorLogin !in excluded then [last.authorLogin] else [])
  }

  lemma {:induction false} RequestedLoginsAppend(a: seq<RequestedReviewer>, b: seq<RequestedReviewer>)
    ensures RequestedLogins(a + b) == RequestedLogins(a) + RequestedLogins(b)
    decreases |b|
  {
    if b != [] {
      assert (a + b)[..|a + b| - 1] == a + b[..|b| - 1];
      RequestedLoginsAppend(a, b[..|b| - 1]);
    } else {
      assert a + b == a;
    }
  }

  /** One review request contributes the login of a user reviewer and nothing
      for a null or non-user reviewer; with `RequestedLoginsAppend` this fixes
      `pending` as the user logins in request order, repetitions kept. */
  lemma RequestedLoginsShape(x: RequestedReviewer)
    ensures RequestedLogins([x]) == if x.UserReviewer? then [x.login] else []
  {
    assert [x][..0] == [];
  }

  lemma {:induction false} RequestedLoginsMembers(requests: seq<RequestedReviewer>, x: string)
    ensures x in RequestedLogins(requests) <==> UserReviewer(x) in requests
  {
    if requests != [] {
      var init := requests[..|requests| - 1];
      RequestedLoginsMembers(init, x);
      assert requests == init + [requests[|requests| - 1]];
    }
  }

  lemma {:induction false} QualifyingLoginsMembers(reviews: seq<Review>, state: string, excluded: seq<string>, x: string)
    ensures x in QualifyingLogins(reviews, state, excluded) <==>
      x !in excluded && Review(x, state) in reviews
  {
    if reviews != [] {
      var init := reviews[..|reviews| - 1];
      QualifyingLoginsMembers(init, state, excluded, x);
      assert reviews == init + [reviews[|reviews| - 1]];
    }
  }

  /** One iteration of the review pass, for one category list. */
  lemma CategoryStep(reviews: seq<Review>, i: nat, state: string, excluded: seq<string>, cat: seq<string>)
    requires i < |reviews| && cat == Dedup(QualifyingLogins(reviews[..i], state, excluded))
    ensures Dedup(QualifyingLogins(reviews[..i + 1], state, excluded)) ==
      if reviews[i].state == state && reviews[i].authorLogin !in excluded && reviews[i].authorLogin !in cat
      then cat + [reviews[i].authorLogin] else cat
  {
    assert reviews[..i + 1][..i] == reviews[..i];
    var q := QualifyingLogins(reviews[..i], state, excluded);
    DedupSnoc(q, reviews[i].authorLogin);
    assert q + [] == q;
  }

  /** The reviewer lists of one pull request, as `get_pending_requests` builds them
      with its two loops: `pending` from the review requests, then one pass over
      the reviews that appends a login to a category list unless it is already
      there (and, for `approved`, unless it is pending). */
  method CategorizeReviewers(requests: seq<RequestedReviewer>, reviews: seq<Review>)
    returns (pending: seq<string>, approved: seq<string>, comments: seq<string>, changesRequested: seq<string>)
    ensures pending == RequestedLogins(requests)
    ensures approved == Dedup(QualifyingLogins(reviews, "APPROVED", pending))
    ensures comments == Dedup(QualifyingLogins(reviews, "COMMENTED", []))
    ensures changesRequested == Dedup(QualifyingLogins(reviews, "CHANGES_REQUESTED", []))
  {
    pending := [];
    for i := 0 to |requests|
      invariant pending == RequestedLogins(requests[..i])
    {
      assert requests[..i + 1][..i] == requests[..i];
      if requests[i].UserReviewer? {
        pending := pending + [requests[i].login];
      }
    }
    assert requests[..|requests|] == requests;
    approved, comments, changesRequested := [], [], [];
    for i := 0 to |reviews|
      invariant approved == Dedup(QualifyingLogins(reviews[..i], "APPROVED", pending))
      invariant comments == Dedup(QualifyingLogins(reviews[..i], "COMMENTED", []))
      invariant changesRequested == Dedup(QualifyingLogins(reviews[..i], "CHANGES_REQUESTED", []))
    {
      var login, state := reviews[i].authorLogin, reviews[i].state;
      CategoryStep(reviews, i, "APPROVED", pending, approved);
      CategoryStep(reviews, i, "COMMENTED", [], comments);
      CategoryStep(reviews, i, "CHANGES_REQUESTED", [], changesRequested);
      if state == "APPROVED" && login !in pending && login !in approved {
        approved := approved + [login];
      }
      if state == "COMMENTED" && login !in comments {
        comments := comments + [login];
      }
      if state == "CHANGES_REQUESTED" && login !in changesRequested {
        changesRequested := changesRequested + [login];
      }
    }
    assert reviews[..|reviews|] == reviews;
  }

  /** What the review pass promises about one category list: no login twice, a
      login is listed exactly when some review of that state by it exists (and it
      is not excluded), and logins appear in the order of their first such review. */
  lemma CategoryProperties(reviews: seq<Review>, state: string, excluded: seq<string>)
    ensures var cat := Dedup(QualifyingLogins(reviews, state, excluded));
      && NoDup(cat)
      && (forall x :: x in cat <==> x !in excluded && Review(x, state) in reviews)
      && (forall i, j :: 0 <= i < j < |cat| ==>
            FirstIndex(QualifyingLogins(reviews, state, excluded), cat[i])
              < FirstIndex(QualifyingLogins(reviews, state, excluded), cat[j]))
  {
    forall x ensures x in QualifyingLogins(reviews, state, excluded) <==> x !in excluded && Review(x, state) in reviews {
      QualifyingLoginsMembers(reviews, state, excluded, x);
    }
    DedupOrder(QualifyingLogins(reviews, state, excluded));
  }

  /** A login never ends up both pending and approved. */
  lemma ApprovedExcludesPending(requests: seq<RequestedReviewer>, reviews: seq<Review>, x: string)
    ensures var pending := RequestedLogins(requests);
      x in Dedup(QualifyingLogins(reviews, "APPROVED", pending)) ==> x !in pending
  {
    QualifyingLoginsMembers(reviews, "APPROVED", RequestedLogins(requests), x);
  }

  /** The three review-state checks are independent: a login with a comment and a
      change request is in both lists, and one that approved (and is not pending)
      and commented is in both of those. */
  lemma CategoriesOverlap(requests: seq<RequestedReviewer>, reviews: seq<Review>, x: string)
    ensures Review(x, "COMMENTED") in reviews && Review(x, "CHANGES_REQUESTED") in reviews ==>
      x in Dedup(QualifyingLogins(reviews, "COMMENTED", []))
      && x in Dedup(QualifyingLogins(reviews, "CHANGES_REQUESTED", []))
    ensures (Review(x, "APPROVED") in reviews && Review(x, "COMMENTED") in reviews
             && UserReviewer(x) !in requests) ==>
      x in Dedup(QualifyingLogins(reviews, "APPROVED", RequestedLogins(requests)))
      && x in Dedup(QualifyingLogins(reviews, "COMMENTED", []))
  {
    RequestedLoginsMembers(requests, x);
    QualifyingLoginsMembers(reviews, "APPROVED", RequestedLogins(requests), x);
    QualifyingLoginsMembers(reviews, "COMMENTED", [], x);
    QualifyingLoginsMembers(reviews, "CHANGES_REQUESTED", [], x);
  }

  // ---------------------------------------------------------------------------
  // get_pending_requests

  /** The reviews with their logins, as the review loop reads
      `reviewer['author']['login']`: no value when some author is null, where the
      subscript raises `TypeError`. */
  function Reviews(nodes: seq<ReviewNode>): (r: Option<seq<Review>>)
    ensures r.Some? <==> forall i :: 0 <= i < |nodes| ==> nodes[i].author.Some?
    ensures r.Some? ==>
      && |r.value| == |nodes|
      && forall i :: 0 <= i < |nodes| ==> r.value[i] == Review(nodes[i].author.value, nodes[i].state)
  {
    if nodes == [] then Some([])
    else
      var last := nodes[|nodes| - 1];
      match Reviews(nodes[..|nodes| - 1])
      case None => None
      case Some(init) =>
        match last.author
        case None => None
        case Some(login) => Some(init + [Review(login, last.state)])
  }

  /** The status-check rollup state of the last commit node; none without commit
      nodes or without a rollup. */
  function CiState(commits: seq<CommitNode>): Option<string>
  {
    if commits == [] then None
    else
      match commits[|commits| - 1].statusCheckRollup
      case None => None
      case Some(rollup) => Some(rollup.state)
  }

  /** `rec` is the record `get_pending_requests` makes of `pr`. */
  ghost predicate IsRecordOf(rec: PendingRequest, pr: PullRequest, clock: string -> Elapsed)
  {
    && Reviews(pr.reviews).Some?
    && var reviews := Reviews(pr.reviews).value;
    && rec.title == pr.title
    && rec.url == pr.url
    && rec.date == ParseDate(clock(pr.createdAt))
    && rec.repository == pr.repository
    && rec.pending == RequestedLogins(pr.reviewRequests)
    && rec.approved == Dedup(QualifyingLogins(reviews, "APPROVED", rec.pending))
    && rec.comments == Dedup(QualifyingLogins(reviews, "COMMENTED", []))
    && rec.changesRequested == Dedup(QualifyingLogins(reviews, "CHANGES_REQUESTED", []))
    && rec.isDraft == pr.isDraft
    && (rec.isBlocked <==> pr.mergeStateStatus == "BLOCKED")
    && rec.ciState == CiState(pr.commits)
  }

  /** `get_pending_requests` raises on `response`: a null on the path to the
      edges, or a review with a null author in some pull request. */
  ghost predicate Raises(response: Response<PullRequest>)
  {
    match Edges(response)
    case None => true
    case Some(prs) => exists i :: 0 <= i < |prs| && Reviews(prs[i].node.reviews).None?
  }

  /** `get_pending_requests`: nothing when the transport gave no reply; an
      exception when the reply has a null where the script expects an object;
      otherwise one record per search edge, in edge order. `clock` gives the
      elapsed time since a timestamp. */
  method GetPendingRequests(response: Option<Response<PullRequest>>, clock: string -> Elapsed)
    returns (result: Outcome<PendingRequest>)
    ensures result.NoResponse? <==> response.None?
    ensures result.Raised? <==> response.Some? && Raises(response.value)
    ensures result.Records? ==>
      && response.Some? && Edges(response.value).Some?
      && |result.records| == |Edges(response.value).value|
      && forall i :: 0 <= i < |result.records| ==>
           IsRecordOf(result.records[i], Edges(response.value).value[i].node, clock)
  {
    if response.None? {
      return NoResponse;
    }
    var edges := Edges(response.value);
    if edges.None? {
      return Raised;
    }
    var prs := edges.value;
    var records: seq<PendingRequest> := [];
    for i := 0 to |prs|
      invariant |records| == i
      invariant forall j :: 0 <= j < i ==> IsRecordOf(records[j], prs[j].node, clock)
    {
      var node := prs[i].node;
      var reviews := Reviews(node.reviews);
      if reviews.None? {
        return Raised;
      }
      var pending, approved, comments, changesRequested := CategorizeReviewers(node.reviewRequests, reviews.value);
      var rec := PendingRequest(
        node.title, node.url, ParseDate(clock(node.createdAt)), node.repository,
        pending, approved, comments, changesRequested,
        node.isDraft, node.mergeStateStatus == "BLOCKED", CiState(node.commits));
      assert IsRecordOf(rec, node, clock);
      records := records + [rec];
    }
    return Records(records);
  }

  /** A GraphQL error reply (`"data": null`) and a review by a deleted account
      make the script raise; a reply without the `data` key, like an empty
      search, gives the empty record list. */
  lemma RaisesCases(pr: PullRequest, state: string)
    ensures Raises(Response(Null))
    ensures pr.reviews == [ReviewNode(None, state)] ==>
      Raises(Response(Present(Data(Present(Search(Present([Edge(pr)])))))))
    ensures !Raises(Response(Absent)) && Edges(Response<PullRequest>.Response(Absent)) == Some([])
    ensures !Raises(Response(Present(Data(Present(Search(Present([])))))))
  {
    if pr.reviews == [ReviewNode(None, state)] {
      assert Reviews(pr.reviews).None?;
      assert [Edge(pr)][0].node == pr;
    }
  }

  // ---------------------------------------------------------------------------
  // The printed menu (the `__main__` block after the records are built)

  const Warning: string := " ⚠️"
  const Hourglass: string := " ⏳"
  const CiIcons: map<string, string> :=
    map["SUCCESS" := ":white_check_mark:", "FAILURE" := ":x:", "PENDING" := ":hourglass:"]

  /** `any(pr['changes_requested'] or pr['ci_state'] == 'FAILURE' ...)`. */
  predicate NeedsAttention(prs: seq<PendingRequest>)
  {
    prs != [] && (prs[0].changesRequested != [] || prs[0].ciState == Some("FAILURE") || NeedsAttention(prs[1..]))
  }

  /** `any(pr['ci_state'] == 'PENDING' ...)`. */
  predicate CiRunning(prs: seq<PendingRequest>)
  {
    prs != [] && (prs[0].ciState == Some("PENDING") || CiRunning(prs[1..]))
  }

  lemma {:induction false} GlyphConditions(prs: seq<PendingRequest>)
    ensures NeedsAttention(prs) <==>
      exists i :: 0 <= i < |prs| && (prs[i].changesRequested != [] || prs[i].ciState == Some("FAILURE"))
    ensures CiRunning(prs) <==> exists i :: 0 <= i < |prs| && prs[i].ciState == Some("PENDING")
  {
    if prs != [] {
      GlyphConditions(prs[1..]);
      assert forall i :: 1 <= i < |prs| ==> prs[i] == prs[1..][i - 1];
    }
  }

  function SummaryLine(prs: seq<PendingRequest>): string
  {
    "#" + IntToString(|prs|) + (if NeedsAttention(prs) then Warning else "")
      + (if CiRunning(prs) then Hourglass else "") + " | color=" + HealthColour.Colour(|prs|)
  }

  /** The summary line: the count, the warning glyph exactly when some pull
      request has change requests or a failed CI, the hourglass exactly when some
      CI is running, and the health colour. */
  lemma SummaryLineGlyphs(prs: seq<PendingRequest>)
    ensures SummaryLine(prs) == "#" + IntToString(|prs|)
      + (if exists i :: 0 <= i < |prs| && (prs[i].changesRequested != [] || prs[i].ciState == Some("FAILURE"))
         then Warning else "")
      + (if exists i :: 0 <= i < |prs| && prs[i].ciState == Some("PENDING") then Hourglass else "")
      + " | color=" + HealthColour.Colour(|prs|)
  {
    GlyphConditions(prs);
  }

  /** `ci_icons.get(state, '') + ' ' if state else ''`. */
  function CiIcon(state: Option<string>): string
  {
    if state.None? || state.value == "" then ""
    else (if state.value in CiIcons then CiIcons[state.value] else "") + " "
  }

  /** A CI state that is set but has no icon contributes a lone space. */
  lemma CiIconUnknownState(s: string)
    requires s != "" && s !in CiIcons
    ensures CiIcon(Some(s)) == " "
  {
  }

  /** The title line before `strip()`. */
  function TitleText(pr: PendingRequest): string
  {
    (if pr.isDraft then ":construction: " else "") + CiIcon(pr.ciState) + pr.repository
      + " - " + pr.title + " (" + pr.date + " ago)" + (if pr.isBlocked then " :lock:" else "")
      + "| color=#586069 href=" + pr.url + " size=16"
  }

  function TitleLine(pr: PendingRequest): string
  {
    Strip(TitleText(pr), UnicodeSpace)
  }

  /** The subtitle before its styling suffix: the non-empty categories in the
      order approved, changes requested, pending, commented. */
  function SubtitleText(pr: PendingRequest): string
  {
    var approved := Join(pr.approved, ", ");
    var pending := Join(pr.pending, ", ");
    var comments := Join(pr.comments, ", ");
    var changes := Join(pr.changesRequested, ", ");
    (if approved != "" then ":white_check_mark: " + approved + " " else "")
      + (if changes != "" then ":warning: " + changes + " " else "")
      + (if pending != "" then ":red_circle: " + pending + " " else "")
      + (if comments != "" then ":pencil: " + comments + " " else "")
  }

  /** The subtitle line, when there is one. */
  function SubtitleLines(pr: PendingRequest): seq<string>
  {
    if SubtitleText(pr) != "" then [Strip(SubtitleText(pr) + " | color=#586069 size=12", UnicodeSpace)] else []
  }

  /** The lines one pull request prints. */
  function PrBlock(pr: PendingRequest): seq<string>
  {
    [TitleLine(pr)] + SubtitleLines(pr) + ["---"]
  }

  function Blocks(prs: seq<PendingRequest>): seq<string>
  {
    if prs == [] then [] else PrBlock(prs[0]) + Blocks(prs[1..])
  }

  const NoPendingPrs: string := "No pending PRs :tada: "

  /** Everything the script prints once the records are built. */
  function Render(prs: seq<PendingRequest>): seq<string>
  {
    [SummaryLine(prs), "---"] + (if |prs| == 0 then [NoPendingPrs] else []) + Blocks(prs)
  }

  /** With no pull requests the output is exactly the summary, one separator and
      the celebration line, with no separator after it. */
  lemma RenderEmpty()
    ensures Render([]) == ["#0 | color=#00a357", "---", "No pending PRs :tada: "]
  {
    HealthColour.ColourEnds(0);
    assert IntToString(0) == "0";
    assert SummaryLine([]) == "#0 | color=#00a357";
    assert Blocks([]) == [];
  }

  /** The subtitle is printed exactly when some category joins to a non-empty
      text; for non-empty logins, exactly when some category is non-empty. */
  lemma SubtitleShown(pr: PendingRequest)
    ensures |SubtitleLines(pr)| == 1 <==>
      Join(pr.approved, ", ") != "" || Join(pr.changesRequested, ", ") != ""
      || Join(pr.pending, ", ") != "" || Join(pr.comments, ", ") != ""
    ensures SubtitleLines(pr) == [] || |SubtitleLines(pr)| == 1
    ensures "" !in pr.approved && "" !in pr.changesRequested && "" !in pr.pending && "" !in pr.comments ==>
      (|SubtitleLines(pr)| == 1 <==>
        pr.approved != [] || pr.changesRequested != [] || pr.pending != [] || pr.comments != [])
  {
    JoinEmpty(pr.approved, ", ");
    JoinEmpty(pr.changesRequested, ", ");
    JoinEmpty(pr.pending, ", ");
    JoinEmpty(pr.comments, ", ");
  }

  /** A pull request prints its title line, then its subtitle line if any, then a
      separator. */
  lemma PrBlockShape(pr: PendingRequest)
    ensures PrBlock(pr)[0] == TitleLine(pr) && PrBlock(pr)[|PrBlock(pr)| - 1] == "---"
    ensures |PrBlock(pr)| == 2 + |SubtitleLines(pr)| && |SubtitleLines(pr)| <= 1
  {
    SubtitleShown(pr);
  }

  lemma {:induction false} BlocksShape(prs: seq<PendingRequest>)
    ensures 2 * |prs| <= |Blocks(prs)| <= 3 * |prs|
    ensures prs != [] ==> Blocks(prs)[|Blocks(prs)| - 1] == "---"
  {
    if prs != [] {
      var b, rest := PrBlock(prs[0]), Blocks(prs[1..]);
      PrBlockShape(prs[0]);
      BlocksShape(prs[1..]);
      assert Blocks(prs) == b + rest;
      assert Blocks(prs)[|Blocks(prs)| - 1] == if rest == [] then b[|b| - 1] else rest[|rest| - 1];
    }
  }

  /** A title line ends with the `size=16` directive, so it is never the
      celebration line (which ends with a space). */
  lemma TitleLineEnd(pr: PendingRequest)
    ensures TitleLine(pr) != [] && TitleLine(pr)[|TitleLine(pr)| - 1] == '6'
  {
    var body := TitleText(pr);
    assert body[|body| - 1] == '6';
    StripKeepsLast(body, UnicodeSpace);
  }

  lemma RenderOfEmpty(prs: seq<PendingRequest>)
    requires prs == []
    ensures Render(prs) == [SummaryLine(prs), "---", NoPendingPrs]
  {
  }

  lemma RenderOfNonEmpty(prs: seq<PendingRequest>)
    requires prs != []
    ensures Render(prs) == [SummaryLine(prs), "---"] + Blocks(prs)
  {
    var head: seq<string> := [SummaryLine(prs), "---"];
    assert Render(prs) == head + [] + Blocks(prs);
    assert head + [] == head;
  }

  lemma RenderNonEmptyEnds(prs: seq<PendingRequest>)
    requires prs != []
    ensures Render(prs)[|Render(prs)| - 1] == "---"
    ensures 4 <= |Render(prs)| <= 2 + 3 * |prs|
  {
    RenderOfNonEmpty(prs);
    BlocksShape(prs);
    var blocks := Blocks(prs);
    assert Render(prs)[|Render(prs)| - 1] == blocks[|blocks| - 1];
  }

  lemma RenderThirdLine(prs: seq<PendingRequest>)
    requires prs != []
    ensures |Render(prs)| > 2 && Render(prs)[2] == TitleLine(prs[0])
  {
    RenderOfNonEmpty(prs);
    BlocksShape(prs);
    PrBlockShape(prs[0]);
    assert Blocks(prs)[0] == PrBlock(prs[0])[0];
  }

  lemma TitleIsNotCelebration(pr: PendingRequest)
    ensures TitleLine(pr) != NoPendingPrs
  {
    TitleLineEnd(pr);
    assert NoPendingPrs[|NoPendingPrs| - 1] == ' ';
  }

  /** The output opens with the summary and a separator. The celebration line
      comes next exactly when there is no pull request, and the output ends with
      a separator exactly when there is at least one: the empty list is the only
      case without a trailing `---`. */
  lemma RenderShape(prs: seq<PendingRequest>)
    ensures Render(prs)[0] == SummaryLine(prs) && Render(prs)[1] == "---"
    ensures Render(prs)[2] == NoPendingPrs <==> prs == []
    ensures Render(prs)[|Render(prs)| - 1] == "---" <==> prs != []
    ensures prs != [] ==> 4 <= |Render(prs)| <= 2 + 3 * |prs|
  {
    var out := Render(prs);
    if prs == [] {
      RenderOfEmpty(prs);
      assert out[|out| - 1] == NoPendingPrs;
      assert NoPendingPrs != "---" by { assert NoPendingPrs[0] != '-'; }
    } else {
      RenderOfNonEmpty(prs);
      RenderNonEmptyEnds(prs);
      RenderThirdLine(prs);
      TitleIsNotCelebration(prs[0]);
      assert out[0] == SummaryLine(prs) && out[1] == "---";
    }
  }
}
