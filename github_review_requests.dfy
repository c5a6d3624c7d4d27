/** github-review-requests.py: the open pull requests waiting for the user's
    review, one flat record each, and the menu-bar text printed for them. The
    script targets Python 2 (`#!/usr/bin/env python`, the `urllib2` fallback),
    so `/` on integers is floor division and `strip()` works on UTF-8 bytes. */
module ReviewRequests {
  import opened Wrappers
  import opened Strings
  import opened TimeDelta
  import opened Sequences
  import opened GraphQl
  import HealthColour

  // ---------------------------------------------------------------------------
  // The node of one search edge; the reply around the nodes is `GraphQl`'s.

  datatype PullRequest = PullRequest(
    repository: string,          // repository.nameWithOwner
    authorLogin: Option<string>, // author.login; `author` is null for a deleted account
    createdAt: string,
    url: string,
    number: int,
    title: string)

  /** One entry of the list `get_reviews_requested` returns. */
  datatype ReviewRequest = ReviewRequest(
    title: string,
    url: string,
    number: int,
    date: string,
    repository: string,
    author: string)

  // ---------------------------------------------------------------------------
  // parse_date (integer division)

  /** `parse_date` given the elapsed time: the largest non-zero unit among days,
      hours, minutes and seconds, plural when the value exceeds one. */
  function ParseDate(e: Elapsed): string
  {
    var days := e.days;
    var hours := e.seconds / 3600;
    var minutes := e.seconds % 3600 / 60;
    var seconds := e.seconds % 3600 % 60;
    if days > 0 then IntToString(days) + " day" + (if days > 1 then "s" else "")
    else if hours > 0 then IntToString(hours) + " hour" + (if hours > 1 then "s" else "")
    else if minutes > 0 then IntToString(minutes) + " minute" + (if minutes > 1 then "s" else "")
    else if seconds > 0 then IntToString(seconds) + " second" + (if seconds > 1 then "s" else "")
    else ""
  }

  /** The unit ParseDate shows is the largest one that fits into the elapsed
      time, and the value is the elapsed time counted in that unit, rounded down:
      whole days first; under a day, `unit` seconds fit `value` times into the
      seconds of the day and the next larger unit does not fit at all. */
  lemma ParseDateLargestUnit(e: Elapsed)
    ensures ParseDate(e) == "" <==> e.days <= 0 && e.seconds == 0
    ensures e.days > 0 ==>
      ParseDate(e) == NatToString(e.days) + " day" + (if e.days > 1 then "s" else "")
    ensures e.days <= 0 && 3600 <= e.seconds ==>
      ParseDate(e) == NatToString(e.seconds / 3600) + " hour" + (if e.seconds >= 7200 then "s" else "")
    ensures e.days <= 0 && 60 <= e.seconds < 3600 ==>
      ParseDate(e) == NatToString(e.seconds / 60) + " minute" + (if e.seconds >= 120 then "s" else "")
    ensures e.days <= 0 && 0 < e.seconds < 60 ==>
      ParseDate(e) == NatToString(e.seconds) + " second" + (if e.seconds >= 2 then "s" else "")
  {
    if e.days > 0 || e.seconds > 0 {
      assert |ParseDate(e)| > 0;
    }
  }

  /** Ninety seconds read as one minute, 3700 seconds as one hour, nothing as
      the empty text. */
  lemma ParseDateExamples()
    ensures ParseDate(Elapsed(0, 90)) == "1 minute"
    ensures ParseDate(Elapsed(0, 3700)) == "1 hour"
    ensures ParseDate(Elapsed(0, 0)) == ""
  {
    ParseDateLargestUnit(Elapsed(0, 90));
    ParseDateLargestUnit(Elapsed(0, 3700));
  }

  // ---------------------------------------------------------------------------
  // get_reviews_requested

  /** `get_reviews_requested` raises on `response`: a null on the path to the
      edges, or a pull request whose author is null. */
  predicate Raises(response: Response<PullRequest>)
  {
    match Edges(response)
    case None => true
    case Some(prs) => exists i :: 0 <= i < |prs| && prs[i].node.authorLogin.None?
  }

  /** `get_reviews_requested`: nothing when the transport gave no reply; an
      exception when the reply has a null where the script expects an object;
      otherwise one record per search edge, in edge order, each copying the
      node's title, url, number, repository and author and the age of its
      creation time. */
  method GetReviewsRequested(response: Option<Response<PullRequest>>, clock: string -> Elapsed)
    returns (result: Outcome<ReviewRequest>)
    ensures result.NoResponse? <==> response.None?
    ensures result.Raised? <==> response.Some? && Raises(response.value)
    ensures result.Records? ==>
      && response.Some? && Edges(response.value).Some?
      && |result.records| == |Edges(response.value).value|
      && forall i :: 0 <= i < |result.records| ==>
           var pr := Edges(response.value).value[i].node;
           && pr.authorLogin.Some?
           && result.records[i] == ReviewRequest(pr.title, pr.url, pr.number, ParseDate(clock(pr.createdAt)),
                                                 pr.repository, pr.authorLogin.value)
  {
    if response.None? {
      return NoResponse;
    }
    var edges := Edges(response.value);
    if edges.None? {
      return Raised;
    }
    var prs := edges.value;
    var reviewsRequested: seq<ReviewRequest> := [];
    for i := 0 to |prs|
      invariant |reviewsRequested| == i
      invariant forall j :: 0 <= j < i ==>
        var pr := prs[j].node;
        && pr.authorLogin.Some?
        && reviewsRequested[j] == ReviewRequest(pr.title, pr.url, pr.number, ParseDate(clock(pr.createdAt)),
                                                pr.repository, pr.authorLogin.value)
    {
      var node := prs[i].node;
      if node.authorLogin.None? {
        return Raised;
      }
      reviewsRequested := reviewsRequested + [ReviewRequest(node.title, node.url, node.number,
        ParseDate(clock(node.createdAt)), node.repository, node.authorLogin.value)];
    }
    return Records(reviewsRequested);
  }

  /** A GraphQL error reply (`"data": null`) and a pull request by a deleted
      account make the script raise; an empty search does not. */
  lemma RaisesCases(pr: PullRequest)
    ensures Raises(Response(Null))
    ensures pr.authorLogin.None? ==> Raises(Response(Present(Data(Present(Search(Present([Edge(pr)])))))))
    ensures !Raises(Response(Present(Data(Present(Search(Present([])))))))
  {
    if pr.authorLogin.None? {
      assert [Edge(pr)][0].node == pr;
    }
  }

  // ---------------------------------------------------------------------------
  // The printed menu

  function SummaryLine(prs: seq<ReviewRequest>): string
  {
    "#" + IntToString(|prs|) + " | color=" + HealthColour.Colour(|prs|)
  }

  function TitleLine(pr: ReviewRequest): string
  {
    Strip(pr.repository + " - " + pr.title + "| color=#586069 href=" + pr.url + " size=16", AsciiSpace)
  }

  function SubtitleLine(pr: ReviewRequest): string
  {
    Strip("#" + IntToString(pr.number) + " opened " + pr.date + " ago by @" + pr.author
      + " | color=#586069 size=12", AsciiSpace)
  }

  /** The three lines printed for one pull request. */
  function PrBlock(pr: ReviewRequest): (b: seq<string>)
    ensures |b| == 3 && b[2] == "---"
  {
    [TitleLine(pr), SubtitleLine(pr), "---"]
  }

  const NoReviewsRequested: string := "No reviews requested :tada: "

  /** Everything the script prints once the records are built. */
  function Render(prs: seq<ReviewRequest>): seq<string>
  {
    [SummaryLine(prs), "---"] + (if |prs| == 0 then [NoReviewsRequested] else []) + FlatMap(prs, PrBlock)
  }

  /** With nothing to review the output is exactly the summary, a separator and
      the celebration line, with no separator after it. */
  lemma RenderEmpty()
    ensures Render([]) == ["#0 | color=#00a357", "---", "No reviews requested :tada: "]
  {
    HealthColour.ColourEnds(0);
    assert IntToString(0) == "0";
    assert SummaryLine([]) == "#0 | color=#00a357";
  }

  /** With at least one pull request the output is the summary, a separator and
      the lines of the pull requests, three each, in order. */
  lemma RenderItems(prs: seq<ReviewRequest>)
    requires prs != []
    ensures Render(prs) == [SummaryLine(prs), "---"] + FlatMap(prs, PrBlock)
    ensures |FlatMap(prs, PrBlock)| == 3 * |prs|
  {
    FlatMapLength(prs, PrBlock, 3);
  }

  /** The i-th pull request's lines are its title line, its subtitle line and a
      separator, at positions 3i, 3i + 1 and 3i + 2 of the pull-request lines
      (lines 2 + 3i, 3 + 3i and 4 + 3i of the whole output). */
  lemma ItemLines(prs: seq<ReviewRequest>, i: nat)
    requires i < |prs|
    ensures |FlatMap(prs, PrBlock)| == 3 * |prs|
    ensures FlatMap(prs, PrBlock)[3 * i..3 * i + 3] == [TitleLine(prs[i]), SubtitleLine(prs[i]), "---"]
  {
    FlatMapUniform(prs, PrBlock, 3, i);
  }
}
