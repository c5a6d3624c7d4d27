/** jira-attendance-support-tickets.1m.rb: the colour of the ticket count,
    the totals over the fetched queues and the lines printed for them. The
    queue replies themselves are inputs (the fetch goes through `JiraClient`). */
module AttendanceTickets {
  import opened Wrappers
  import opened Sequences
  import Strings

  /** `pick_hex_colour`: green for no tickets, orange for one to three, red
      for everything else, negative counts included. */
  function PickHexColour(ticketsSize: int): (c: string)
    ensures c == "#02A61E" <==> ticketsSize == 0
    ensures c == "#FC8900" <==> 1 <= ticketsSize <= 3
    ensures c == "#FF0000" <==> ticketsSize < 0 || ticketsSize >= 4
  {
    if ticketsSize == 0 then "#02A61E"
    else if 1 <= ticketsSize <= 3 then "#FC8900"
    else "#FF0000"
  }

  /** The parts of an issue that get printed. */
  datatype Ticket = Ticket(key: string, summary: string, statusName: string)

  /** One queue reply as `JiraClient#get` returns it: the parsed object of a
      reply whose status code starts with 20, with its `size` and its `values`
      (`None` when the member is absent or null), or the raw body text of any
      other reply. */
  datatype QueueReply = Queue(size: Option<int>, values: Option<seq<Ticket>>) | RawBody(body: string)

  /** `queue['size'].to_i`: `nil.to_i` is 0. On a raw body, `String#[]` gives
      `nil`, or the text `"size"` when the body contains it, and both turn
      into 0. */
  function SizeOf(q: QueueReply): int
  {
    match q
    case Queue(size, _) => size.GetOr(0)
    case RawBody(_) => 0
  }

  /** `all_queues.sum { |queue| queue['size'].to_i }`. */
  function TotalSize(queues: seq<QueueReply>): int
  {
    if queues == [] then 0 else SizeOf(queues[0]) + TotalSize(queues[1..])
  }

  /** The total adds up queue by queue: a queue appended at the end adds its
      own size. */
  lemma {:induction false} TotalSizeAppend(queues: seq<QueueReply>, q: QueueReply)
    ensures TotalSize(queues + [q]) == TotalSize(queues) + SizeOf(q)
  {
    if queues != [] {
      assert (queues + [q])[1..] == queues[1..] + [q];
      TotalSizeAppend(queues[1..], q);
    }
  }

  /** With sizes that are present and non-negative, the total is zero exactly
      when every queue reports zero. */
  lemma {:induction false} TotalSizeZero(queues: seq<QueueReply>)
    requires forall i :: 0 <= i < |queues| ==> SizeOf(queues[i]) >= 0
    ensures TotalSize(queues) >= 0
    ensures TotalSize(queues) == 0 <==> forall i :: 0 <= i < |queues| ==> SizeOf(queues[i]) == 0
  {
    if queues != [] {
      TotalSizeZero(queues[1..]);
      assert forall i :: 1 <= i < |queues| ==> queues[i] == queues[1..][i - 1];
    }
  }

  /** `queue['values']` when it is an array; none when the member is missing
      or null, or the reply is a raw body (where `String#[]` gives `nil` or a
      text), since adding any of those to an array raises `TypeError`. */
  function Values(q: QueueReply): Option<seq<Ticket>>
  {
    match q
    case Queue(_, values) => values
    case RawBody(_) => None
  }

  /** `all_queues.reduce([]) { |values, queue| values + queue['values'] }`:
      the queues' values one after the other, or none when the reduction
      raises on a queue without an array of values. */
  function AllTickets(queues: seq<QueueReply>): (r: Option<seq<Ticket>>)
    ensures r.Some? <==> forall i :: 0 <= i < |queues| ==> Values(queues[i]).Some?
  {
    if queues == [] then Some([])
    else
      var init := queues[..|queues| - 1];
      assert forall i :: 0 <= i < |init| ==> init[i] == queues[i];
      match AllTickets(init)
      case None => None
      case Some(tickets) =>
        match Values(queues[|queues| - 1])
        case None => None
        case Some(values) => Some(tickets + values)
  }

  /** A queue appended at the end contributes its values at the end, and the
      count of tickets is the sum of the queues' counts. */
  lemma AllTicketsAppend(queues: seq<QueueReply>, q: QueueReply)
    requires AllTickets(queues).Some? && Values(q).Some?
    ensures AllTickets(queues + [q]) == Some(AllTickets(queues).value + Values(q).value)
    ensures |AllTickets(queues + [q]).value| == |AllTickets(queues).value| + |Values(q).value|
  {
    assert (queues + [q])[..|queues|] == queues;
  }

  /** Every ticket printed comes from some queue, and every queue's tickets
      are printed. */
  lemma {:induction false} AllTicketsMembers(queues: seq<QueueReply>, t: Ticket)
    requires AllTickets(queues).Some?
    ensures t in AllTickets(queues).value <==> exists i :: 0 <= i < |queues| && t in Values(queues[i]).value
  {
    if queues != [] {
      var init, last := queues[..|queues| - 1], queues[|queues| - 1];
      assert queues == init + [last];
      AllTicketsMembers(init, t);
      assert AllTickets(queues).value == AllTickets(init).value + Values(last).value;
      if t in AllTickets(init).value {
        var i :| 0 <= i < |init| && t in Values(init[i]).value;
        assert queues[i] == init[i];
      }
      if exists i :: 0 <= i < |queues| && t in Values(queues[i]).value {
        var i :| 0 <= i < |queues| && t in Values(queues[i]).value;
        if i < |init| {
          assert init[i] == queues[i];
        }
      }
    }
  }

  /** A raw reply anywhere, failed or not JSON, makes the reduction raise. */
  lemma RawBodyRaises(queues: seq<QueueReply>, i: nat)
    requires i < |queues| && queues[i].RawBody?
    ensures AllTickets(queues) == None
  {
    assert Values(queues[i]).None?;
  }

  const BrowseUrl: string := "https://jobandtalent.atlassian.net/browse/"

  /** The link of a ticket: the fixed browse address followed by the key. */
  function TicketUrl(key: string): (u: string)
    ensures Strings.StartsWith(u, BrowseUrl) && u[|BrowseUrl|..] == key
  {
    BrowseUrl + key
  }

  lemma TicketUrlInjective(a: string, b: string)
    ensures TicketUrl(a) == TicketUrl(b) ==> a == b
  {
    if TicketUrl(a) == TicketUrl(b) {
      assert a == TicketUrl(a)[|BrowseUrl|..];
    }
  }

  /** A ticket in a support status shows its summary; any other shows its
      status. */
  function TicketLine(t: Ticket): string
  {
    var url := TicketUrl(t.key);
    if Strings.EndsWith(t.statusName, "support") then t.key + " - " + t.summary + " | href=" + url + " size=12"
    else t.key + " is " + t.statusName + " | href=" + url + " size=12"
  }

  /** The line always starts with the key; what follows is the summary exactly
      when the status ends in `support`. */
  lemma TicketLineChoice(t: Ticket)
    ensures Strings.StartsWith(TicketLine(t), t.key)
    ensures Strings.EndsWith(t.statusName, "support") ==>
      TicketLine(t)[|t.key|..] == " - " + t.summary + " | href=" + TicketUrl(t.key) + " size=12"
    ensures !Strings.EndsWith(t.statusName, "support") ==>
      TicketLine(t)[|t.key|..] == " is " + t.statusName + " | href=" + TicketUrl(t.key) + " size=12"
  {
  }

  function TicketBlock(t: Ticket): (b: seq<string>)
    ensures |b| == 2 && b[1] == "---"
  {
    [TicketLine(t), "---"]
  }

  function SummaryLine(size: int): string
  {
    Strings.IntToString(size) + " :ticket: | size=12 color=" + PickHexColour(size)
  }

  const NoTickets: string := "No :ticket: to solve :tada:"

  /** Everything the script prints: nothing when collecting the tickets
      raises, as that happens before the first line; otherwise the summary of
      the reported size, a separator, the celebration line when that size is
      zero, then two lines per ticket. */
  function Render(queues: seq<QueueReply>): Option<seq<string>>
  {
    match AllTickets(queues)
    case None => None
    case Some(tickets) =>
      Some([SummaryLine(TotalSize(queues)), "---"]
        + (if TotalSize(queues) == 0 then [NoTickets] else [])
        + FlatMap(tickets, TicketBlock))
  }

  /** The menu is printed exactly when every queue has its values, and then the
      celebration line depends on the reported size only: it is printed exactly
      when the sizes add up to zero, whatever tickets are listed, and the ticket
      lines follow it. */
  lemma RenderHeader(queues: seq<QueueReply>)
    ensures Render(queues).Some? <==> forall i :: 0 <= i < |queues| ==> Values(queues[i]).Some?
    ensures Render(queues).Some? ==>
      var out, tickets := Render(queues).value, AllTickets(queues).value;
      var skip := if TotalSize(queues) == 0 then 3 else 2;
      && |out| == skip + 2 * |tickets|
      && out[..2] == [SummaryLine(TotalSize(queues)), "---"]
      && (TotalSize(queues) == 0 <==> out[2..skip] == [NoTickets])
      && out[skip..] == FlatMap(tickets, TicketBlock)
  {
    if AllTickets(queues).Some? {
      FlatMapLength(AllTickets(queues).value, TicketBlock, 2);
    }
  }

  /** Each ticket takes two lines, its own line and a separator, in the order
      of the queues. */
  lemma TicketLines(tickets: seq<Ticket>, i: nat)
    requires i < |tickets|
    ensures |FlatMap(tickets, TicketBlock)| == 2 * |tickets| && 2 * i + 2 <= 2 * |tickets|
    ensures FlatMap(tickets, TicketBlock)[2 * i..2 * i + 2] == [TicketLine(tickets[i]), "---"]
  {
    FlatMapUniform(tickets, TicketBlock, 2, i);
  }

  /** No queues: a green zero, a separator and the celebration line. */
  lemma RenderNoQueues()
    ensures Render([]) == Some([SummaryLine(0), "---", NoTickets])
    ensures SummaryLine(0) == "0" + " :ticket: | size=12 color=" + "#02A61E"
  {
    assert Strings.NatToString(0) == "0";
    assert PickHexColour(0) == "#02A61E";
    assert AllTickets([]) == Some([]) && TotalSize([]) == 0;
    assert FlatMap([], TicketBlock) == [];
    assert Render([]) == Some([SummaryLine(0), "---"] + [NoTickets] + []);
    assert [SummaryLine(0), "---"] + [NoTickets] + [] == [SummaryLine(0), "---", NoTickets];
  }
}
