/** jira_client.rb: the client object that remembers the Jira domain and the
    Basic-authentication credentials, the queue address it builds and its
    test for a successful answer. The environment variables and the HTTP
    exchange are inputs. */
module JiraClientModel {
  import Strings
  import Base64

  const DefaultDomain: string := "https://jobandtalent.atlassian.net"

  /** `domain.end_with?('/') ? domain[0..-2] : domain`: one trailing slash
      goes, nothing else changes. */
  function StripTrailingSlash(domain: string): (d: string)
    ensures Strings.EndsWith(domain, "/") ==> |d| == |domain| - 1 && domain == d + "/"
    ensures !Strings.EndsWith(domain, "/") ==> d == domain
  {
    if Strings.EndsWith(domain, "/") then domain[..|domain| - 1] else domain
  }

  /** Only one slash is removed: `x//` becomes `x/`, and a stripped domain
      keeps its slash-free ending. */
  lemma StripOneSlashOnly(x: string)
    ensures StripTrailingSlash(x + "//") == x + "/"
    ensures !Strings.EndsWith(x, "/") ==> StripTrailingSlash(StripTrailingSlash(x + "/")) == x
  {
    assert Strings.EndsWith(x + "//", "/") && (x + "//")[..|x| + 1] == x + "/";
    assert Strings.EndsWith(x + "/", "/") && (x + "/")[..|x|] == x;
  }

  /** The default domain has no trailing slash, so a client made without a
      domain keeps it as it is. */
  lemma DefaultDomainKept()
    ensures StripTrailingSlash(DefaultDomain) == DefaultDomain
  {
    assert DefaultDomain[|DefaultDomain| - 1] == 't';
  }

  /** The byte of `:` in the credentials string. */
  const Colon: Base64.Byte := 58

  /** The outcome of `get`: a 2xx-looking status hands the body to the JSON
      parser, any other returns the body text as it came. */
  datatype Reply = Parsed(json: string) | Raw(body: string)

  /** `response.code.start_with?('20')`. */
  function Classify(code: string, body: string): (r: Reply)
    ensures r.Parsed? <==> Strings.StartsWith(code, "20")
    ensures r == Parsed(body) || r == Raw(body)
  {
    if Strings.StartsWith(code, "20") then Parsed(body) else Raw(body)
  }

  /** The test reads only the first two characters of the status code: 200,
      201 and 204 succeed, 404 and 500 do not, and neither does 226. */
  lemma ClassifyExamples(body: string)
    ensures Classify("200", body).Parsed? && Classify("201", body).Parsed? && Classify("204", body).Parsed?
    ensures Classify("404", body) == Raw(body) && Classify("500", body) == Raw(body)
    ensures Classify("226", body) == Raw(body) && Classify("2", body) == Raw(body)
  {
    assert "20" <= "200" && "20" <= "201" && "20" <= "204";
    assert "20"[1] != "226"[1] && "20"[0] != "404"[0] && "20"[0] != "500"[0];
  }

  class JiraClient {
    var domain: string
    var credentials: string

    /** `initialize`: the domain without its trailing slash (the company's
        Jira site when none is given) and the strict Base64 of `email:token`
        (the environment values as bytes). */
    constructor(domainArg: string := DefaultDomain, email: seq<Base64.Byte>, token: seq<Base64.Byte>)
      ensures domain == StripTrailingSlash(domainArg)
      ensures credentials == Base64.Encode(email + [Colon] + token)
    {
      domain := StripTrailingSlash(domainArg);
      credentials := Base64.Encode(email + [Colon] + token);
    }

    /** The value of the Authorization header `get` sends. */
    function Authorization(): (h: string)
      reads this
      ensures Strings.StartsWith(h, "Basic ") && h[6..] == credentials
    {
      "Basic " + credentials
    }

    /** The address `get_queue` asks for. */
    function QueueUri(servicedeskId: int, queueId: int): (u: string)
      reads this
      ensures Strings.StartsWith(u, domain + "/rest/servicedeskapi/servicedesk/")
      ensures Strings.EndsWith(u, "/issue")
    {
      domain + "/rest/servicedeskapi/servicedesk/" + Strings.IntToString(servicedeskId)
        + "/queue/" + Strings.IntToString(queueId) + "/issue"
    }
  }

  /** `JiraClient.new` without a domain, as the attendance script calls it:
      the client talks to the default site. */
  method NewDefaultClient(email: seq<Base64.Byte>, token: seq<Base64.Byte>) returns (c: JiraClient)
    ensures c.domain == DefaultDomain
    ensures c.credentials == Base64.Encode(email + [Colon] + token)
  {
    DefaultDomainKept();
    c := new JiraClient(email := email, token := token);
  }

  predicate NoSlash(s: string)
  {
    forall k :: 0 <= k < |s| ==> s[k] != '/'
  }

  /** The index of the first slash, or the length when there is none. */
  function FirstSlash(s: string): (n: nat)
    ensures n <= |s|
  {
    if s == [] || s[0] == '/' then 0 else 1 + FirstSlash(s[1..])
  }

  lemma {:induction false} FirstSlashAfter(a: string, r: string)
    requires NoSlash(a)
    ensures FirstSlash(a + "/" + r) == |a|
  {
    if a != [] {
      assert (a + "/" + r)[1..] == a[1..] + "/" + r;
      FirstSlashAfter(a[1..], r);
    }
  }

  /** Two strings split at their first slash agree on both sides of it. */
  lemma SplitAtFirstSlash(a: string, r1: string, b: string, r2: string)
    requires NoSlash(a) && NoSlash(b)
    requires a + "/" + r1 == b + "/" + r2
    ensures a == b && r1 == r2
  {
    var u := a + "/" + r1;
    FirstSlashAfter(a, r1);
    FirstSlashAfter(b, r2);
    assert a == u[..|a|] == b;
    assert r1 == u[|a| + 1..] == r2;
  }

  lemma IntToStringNoSlash(i: int)
    ensures NoSlash(Strings.IntToString(i))
  {
    var s := Strings.IntToString(i);
    forall k | 0 <= k < |s| ensures s[k] != '/' {
      assert Strings.IsDigit(s[k]) || s[k] == '-';
    }
  }

  /** The part of a queue address after the service desk prefix. */
  function QueuePath(servicedeskId: int, queueId: int): string
  {
    Strings.IntToString(servicedeskId) + "/" + ("queue/" + Strings.IntToString(queueId) + "/issue")
  }

  lemma QueuePathInjective(s1: int, q1: int, s2: int, q2: int)
    requires QueuePath(s1, q1) == QueuePath(s2, q2)
    ensures s1 == s2 && q1 == q2
  {
    var t1 := "queue/" + Strings.IntToString(q1) + "/issue";
    var t2 := "queue/" + Strings.IntToString(q2) + "/issue";
    IntToStringNoSlash(s1);
    IntToStringNoSlash(s2);
    SplitAtFirstSlash(Strings.IntToString(s1), t1, Strings.IntToString(s2), t2);
    Strings.IntToStringInjective(s1, s2);
    assert Strings.IntToString(q1) == t1[6..|t1| - 6] == Strings.IntToString(q2);
    Strings.IntToStringInjective(q1, q2);
  }

  lemma Regroup<T>(p: seq<T>, a: seq<T>, slash: T, b: seq<T>, c: seq<T>, d: seq<T>)
    ensures p + a + ([slash] + b) + c + d == p + (a + [slash] + (b + c + d))
  {
  }

  lemma PrefixCancel<T>(p: seq<T>, a: seq<T>, b: seq<T>)
    requires p + a == p + b
    ensures a == b
  {
    assert a == (p + a)[|p|..];
  }

  /** Different queues get different addresses: the service desk and queue
      ids can be read back from the address. */
  lemma QueueUriInjective(c: JiraClient, s1: int, q1: int, s2: int, q2: int)
    ensures c.QueueUri(s1, q1) == c.QueueUri(s2, q2) ==> s1 == s2 && q1 == q2
  {
    var prefix := c.domain + "/rest/servicedeskapi/servicedesk/";
    var i1, j1 := Strings.IntToString(s1), Strings.IntToString(q1);
    var i2, j2 := Strings.IntToString(s2), Strings.IntToString(q2);
    assert "/queue/" == "/" + "queue/";
    Regroup(prefix, i1, '/', "queue/", j1, "/issue");
    Regroup(prefix, i2, '/', "queue/", j2, "/issue");
    if c.QueueUri(s1, q1) == c.QueueUri(s2, q2) {
      PrefixCancel(prefix, QueuePath(s1, q1), QueuePath(s2, q2));
      QueuePathInjective(s1, q1, s2, q2);
    }
  }
}
