/**
  The FHIR bundle client: flattening the `resource` objects out of a list of
  bundles, and the paging loop that follows each bundle's `next` link.

  The network is a parameter: `reply(page, request)` is the response the
  server gives to the `page`-th request sent. Timeouts, headers and the pause
  between requests are not part of this model.
 */
module BundlePages {
  import opened Wrappers
  import opened Json
  import opened Seqs

  // ---------------------------------------------------------------------------
  // extract_resources_from_bundles
  // ---------------------------------------------------------------------------

  /** `bundle.get("entry", [])` */
  function EntriesOf(bundle: Json): seq<Json> {
    AsList(GetOr(bundle, "entry", EmptyList))
  }

  /** `entry.get("resource")` */
  function ResourceOf(entry: Json): Json {
    Get(entry, "resource")
  }

  /** The truthy resources of some entries, in entry order. */
  function EntryResources(entries: seq<Json>): seq<Json> {
    if |entries| == 0 then []
    else
      var resource := ResourceOf(entries[|entries| - 1]);
      EntryResources(entries[..|entries| - 1]) + (if Truthy(resource) then [resource] else [])
  }

  /** The truthy resources of all bundles, in bundle order and then entry order. */
  function Resources(bundles: seq<Json>): seq<Json> {
    if |bundles| == 0 then []
    else Resources(bundles[..|bundles| - 1]) + EntryResources(EntriesOf(bundles[|bundles| - 1]))
  }

  /** The number of entries over all bundles. */
  function EntryCount(bundles: seq<Json>): nat {
    if |bundles| == 0 then 0
    else EntryCount(bundles[..|bundles| - 1]) + |EntriesOf(bundles[|bundles| - 1])|
  }

  lemma {:induction false} EntryResourcesSnoc(entries: seq<Json>, e: nat)
    requires e < |entries|
    ensures EntryResources(entries[..e + 1])
         == EntryResources(entries[..e]) + (if Truthy(ResourceOf(entries[e])) then [ResourceOf(entries[e])] else [])
  {
    assert entries[..e + 1][..e] == entries[..e];
  }

  lemma {:induction false} ResourcesSnoc(bundles: seq<Json>, b: nat)
    requires b < |bundles|
    ensures Resources(bundles[..b + 1]) == Resources(bundles[..b]) + EntryResources(EntriesOf(bundles[b]))
  {
    assert bundles[..b + 1][..b] == bundles[..b];
  }

  /** `extract_resources_from_bundles`: the nested loops appending each truthy resource. */
  method ExtractResourcesFromBundles(bundles: seq<Json>) returns (resources: seq<Json>)
    ensures resources == Resources(bundles)
  {
    resources := [];
    var b := 0;
    while b < |bundles|
      invariant 0 <= b <= |bundles|
      invariant resources == Resources(bundles[..b])
    {
      var entries := EntriesOf(bundles[b]);
      var e := 0;
      assert entries[..0] == [];
      while e < |entries|
        invariant 0 <= e <= |entries|
        invariant resources == Resources(bundles[..b]) + EntryResources(entries[..e])
      {
        var resource := ResourceOf(entries[e]);
        if Truthy(resource) {
          resources := resources + [resource];
        }
        EntryResourcesSnoc(entries, e);
        e := e + 1;
      }
      assert entries[..e] == entries;
      ResourcesSnoc(bundles, b);
      b := b + 1;
    }
    assert bundles[..b] == bundles;
  }

  /** The resources of consecutive bundle lists are concatenated in order. */
  lemma {:induction false} ResourcesAppend(a: seq<Json>, b: seq<Json>)
    ensures Resources(a + b) == Resources(a) + Resources(b)
    decreases |b|
  {
    if |b| == 0 {
      assert a + b == a;
    } else {
      var n := |b| - 1;
      assert (a + b)[..|a + b| - 1] == a + b[..n];
      assert (a + b)[|a + b| - 1] == b[n];
      ResourcesAppend(a, b[..n]);
    }
  }

  /**
    A value is among the resources of some entries exactly when it is truthy
    and it is the `resource` of one of them.
   */
  lemma {:induction false} EntryResourcesMembership(entries: seq<Json>, x: Json)
    ensures x in EntryResources(entries)
        <==> Truthy(x) && exists e :: 0 <= e < |entries| && ResourceOf(entries[e]) == x
    decreases |entries|
  {
    if |entries| > 0 {
      var n := |entries| - 1;
      EntryResourcesMembership(entries[..n], x);
      if exists e :: 0 <= e < n && ResourceOf(entries[..n][e]) == x {
        var e :| 0 <= e < n && ResourceOf(entries[..n][e]) == x;
        assert entries[..n][e] == entries[e];
      }
      if exists e :: 0 <= e < |entries| && ResourceOf(entries[e]) == x {
        var e :| 0 <= e < |entries| && ResourceOf(entries[e]) == x;
        if e < n {
          assert entries[..n][e] == entries[e];
        }
      }
    }
  }

  /** Falsy resources (absent, `null`, empty objects) are skipped, so there are at most as many resources as entries. */
  lemma {:induction false} ResourcesBound(bundles: seq<Json>)
    ensures |Resources(bundles)| <= EntryCount(bundles)
    ensures forall i :: 0 <= i < |Resources(bundles)| ==> Truthy(Resources(bundles)[i])
    decreases |bundles|
  {
    if |bundles| > 0 {
      var n := |bundles| - 1;
      ResourcesBound(bundles[..n]);
      EntryResourcesBound(EntriesOf(bundles[n]));
    }
  }

  lemma {:induction false} EntryResourcesBound(entries: seq<Json>)
    ensures |EntryResources(entries)| <= |entries|
    ensures forall i :: 0 <= i < |EntryResources(entries)| ==> Truthy(EntryResources(entries)[i])
    decreases |entries|
  {
    if |entries| > 0 {
      EntryResourcesBound(entries[..|entries| - 1]);
    }
  }

  // ---------------------------------------------------------------------------
  // fetch_all_bundle_pages
  // ---------------------------------------------------------------------------

  /** A GET request: the URL and the `_count` parameter, when one is sent. */
  datatype Request = Request(url: Json, count: Option<int>)

  /** A response: its status code and its JSON body. */
  datatype Response = Response(status: int, body: Json)

  /** The `page`-th request: `_count` goes only with the first one. */
  function RequestAt(next: Json, page: nat, firstCount: int): (req: Request)
    ensures req.url == next
    ensures req.count.Some? <==> page == 0
  {
    Request(next, if page == 0 then Some(firstCount) else None)
  }

  /** `link.get("relation") == "next"` */
  predicate IsNextLink(link: Json) {
    Get(link, "relation") == JStr("next")
  }

  /** `bundle.get("link", [])` */
  function Links(bundle: Json): seq<Json> {
    AsList(GetOr(bundle, "link", EmptyList))
  }

  /** Link `i` is the first whose relation is `next`. */
  predicate IsFirstNextLink(links: seq<Json>, i: int) {
    0 <= i < |links| && IsNextLink(links[i]) && forall j :: 0 <= j < i ==> !IsNextLink(links[j])
  }

  /** The `url` of the first link whose relation is `next`; `None` when there is none. */
  function NextLink(bundle: Json): Json {
    var links := Links(bundle);
    var k := FirstWhere(links, IsNextLink);
    if k < |links| then Get(links[k], "url") else JNull
  }

  /**
    The next URL is the `url` of the first `next` link, and `None` when no
    link has relation `next`.
   */
  lemma {:induction false} NextLinkFinds(bundle: Json)
    ensures (forall i :: 0 <= i < |Links(bundle)| ==> !IsNextLink(Links(bundle)[i])) ==> NextLink(bundle) == JNull
    ensures forall i :: IsFirstNextLink(Links(bundle), i) ==> NextLink(bundle) == Get(Links(bundle)[i], "url")
  {
    var links := Links(bundle);
    var k := FirstWhere(links, IsNextLink);
    assert k < |links| ==> IsNextLink(links[k]);
  }

  /**
    What stays fixed during the paging loop: the page cap, the `_count` sent
    with the first request, the server, and how the next URL is read off a
    bundle (`NextLink` in the loop itself).
   */
  datatype Client = Client(maxPages: int, firstCount: int, reply: (nat, Request) -> Response, follow: Json -> Json)

  /** The `for link in bundle.get("link", [])` search, stopping at the first `next` link. */
  method FindNextLink(bundle: Json) returns (nextLink: Json)
    ensures nextLink == NextLink(bundle)
  {
    var links := Links(bundle);
    nextLink := JNull;
    var i := 0;
    while i < |links|
      invariant 0 <= i <= |links|
      invariant forall j :: 0 <= j < i ==> !IsNextLink(links[j])
    {
      if IsNextLink(links[i]) {
        nextLink := Get(links[i], "url");
        break;
      }
      i := i + 1;
    }
    assert i < |links| ==> IsNextLink(links[i]);
    FirstWhereIs(links, IsNextLink, i);
  }

  /** The loop keeps going while there is a truthy next URL and pages to spare. */
  predicate Continues(c: Client, next: Json, page: nat) {
    Truthy(next) && page < c.maxPages
  }

  /** The response to the `page`-th request, sent to `next`. */
  function ReplyAt(c: Client, next: Json, page: nat): Response {
    c.reply(page, RequestAt(next, page, c.firstCount))
  }

  /**
    The bundles collected from page `page` on, when the next URL is `next`:
    stop without a next URL or at the page cap, stop on a non-200 response,
    otherwise keep the body and follow its next link.
   */
  function Pages(c: Client, next: Json, page: nat): seq<Json>
    decreases c.maxPages - page
  {
    if !Continues(c, next, page) then []
    else
      var resp := ReplyAt(c, next, page);
      if resp.status != 200 then []
      else [resp.body] + Pages(c, c.follow(resp.body), page + 1)
  }

  /** The requests sent from page `page` on: one per collected bundle, plus the failed one if any. */
  function Sent(c: Client, next: Json, page: nat): seq<Request>
    decreases c.maxPages - page
  {
    if !Continues(c, next, page) then []
    else
      var resp := ReplyAt(c, next, page);
      if resp.status != 200 then [RequestAt(next, page, c.firstCount)]
      else [RequestAt(next, page, c.firstCount)] + Sent(c, c.follow(resp.body), page + 1)
  }

  /** One round of the loop: a 200 response contributes its body and moves on to its next link. */
  lemma {:induction false} PagesStep(c: Client, next: Json, page: nat)
    requires Continues(c, next, page) && ReplyAt(c, next, page).status == 200
    ensures Pages(c, next, page) == [ReplyAt(c, next, page).body] + Pages(c, c.follow(ReplyAt(c, next, page).body), page + 1)
    ensures Sent(c, next, page) == [RequestAt(next, page, c.firstCount)] + Sent(c, c.follow(ReplyAt(c, next, page).body), page + 1)
  {
  }

  /** The loop ends without a next URL, at the page cap, or on a non-200 response. */
  lemma {:induction false} PagesStop(c: Client, next: Json, page: nat)
    requires !Continues(c, next, page) || ReplyAt(c, next, page).status != 200
    ensures Pages(c, next, page) == []
    ensures Sent(c, next, page) == if Continues(c, next, page) then [RequestAt(next, page, c.firstCount)] else []
  {
  }

  /** The loop's invariant survives a round that keeps a 200 body. */
  lemma {:induction false} PagesCollect(c: Client, done: seq<Json>, next: Json, page: nat)
    requires Continues(c, next, page) && ReplyAt(c, next, page).status == 200
    ensures done + Pages(c, next, page)
         == (done + [ReplyAt(c, next, page).body]) + Pages(c, c.follow(ReplyAt(c, next, page).body), page + 1)
  {
    PagesStep(c, next, page);
  }

  /** `fetch_all_bundle_pages`: the paging loop. */
  method FetchAllBundlePages(url: string, firstCount: int, maxPages: int, reply: (nat, Request) -> Response)
    returns (bundles: seq<Json>)
    ensures bundles == Pages(Client(maxPages, firstCount, reply, NextLink), JStr(url), 0)
  {
    ghost var c := Client(maxPages, firstCount, reply, NextLink);
    ghost var total := Pages(c, JStr(url), 0);
    bundles := [];
    var nextUrl := JStr(url);
    var page: nat := 0;
    while Truthy(nextUrl) && page < maxPages
      invariant bundles + Pages(c, nextUrl, page) == total
      decreases maxPages - page
    {
      var resp := reply(page, RequestAt(nextUrl, page, firstCount));
      if resp.status != 200 {
        PagesStop(c, nextUrl, page);
        break;
      }
      var bundle := resp.body;
      PagesCollect(c, bundles, nextUrl, page);
      bundles := bundles + [bundle];
      nextUrl := FindNextLink(bundle);
      assert nextUrl == c.follow(bundle);
      page := page + 1;
    }
  }

  /** At most `maxPages` bundles are collected (none when it is not positive). */
  lemma {:induction false} PagesBound(c: Client, next: Json, page: nat)
    ensures |Pages(c, next, page)| <= if c.maxPages - page < 0 then 0 else c.maxPages - page
    decreases c.maxPages - page
  {
    if Continues(c, next, page) && ReplyAt(c, next, page).status == 200 {
      PagesBound(c, c.follow(ReplyAt(c, next, page).body), page + 1);
    }
  }

  /**
    One request is sent per collected bundle, plus one more exactly when the
    loop stopped on a response that was not 200.
   */
  lemma {:induction false} SentCount(c: Client, next: Json, page: nat)
    ensures |Pages(c, next, page)| <= |Sent(c, next, page)| <= |Pages(c, next, page)| + 1
    ensures |Sent(c, next, page)| == |Pages(c, next, page)| + 1 ==>
      c.reply(page + |Pages(c, next, page)|, Sent(c, next, page)[|Pages(c, next, page)|]).status != 200
    decreases c.maxPages - page
  {
    if Continues(c, next, page) && ReplyAt(c, next, page).status == 200 {
      var next' := c.follow(ReplyAt(c, next, page).body);
      SentCount(c, next', page + 1);
      PagesStep(c, next, page);
      var pages, sent := Pages(c, next, page), Sent(c, next, page);
      var pages', sent' := Pages(c, next', page + 1), Sent(c, next', page + 1);
      if |sent| == |pages| + 1 {
        assert sent[|pages|] == sent'[|pages'|];
        assert page + |pages| == (page + 1) + |pages'|;
      }
    } else {
      PagesStop(c, next, page);
    }
  }

  /** The first request goes to the starting URL, and only it carries `_count`. */
  lemma {:induction false} CountOnlyFirst(c: Client, next: Json, page: nat)
    ensures |Sent(c, next, page)| > 0 ==> Sent(c, next, page)[0].url == next
    ensures forall i :: 0 <= i < |Sent(c, next, page)| ==> (Sent(c, next, page)[i].count.Some? <==> page + i == 0)
    decreases c.maxPages - page
  {
    if Continues(c, next, page) && ReplyAt(c, next, page).status == 200 {
      var next' := c.follow(ReplyAt(c, next, page).body);
      CountOnlyFirst(c, next', page + 1);
      PagesStep(c, next, page);
      var sent, sent' := Sent(c, next, page), Sent(c, next', page + 1);
      forall i | 0 < i < |sent|
        ensures sent[i].count.Some? <==> page + i == 0
      {
        assert sent[i] == sent'[i - 1];
      }
    } else {
      PagesStop(c, next, page);
    }
  }

  /** Each collected bundle is the body of a 200 response to the request of its round. */
  lemma {:induction false} PagesAreReplies(c: Client, next: Json, page: nat)
    ensures forall i :: 0 <= i < |Pages(c, next, page)| ==>
      i < |Sent(c, next, page)| && c.reply(page + i, Sent(c, next, page)[i]) == Response(200, Pages(c, next, page)[i])
    decreases c.maxPages - page
  {
    if Continues(c, next, page) && ReplyAt(c, next, page).status == 200 {
      var next' := c.follow(ReplyAt(c, next, page).body);
      PagesAreReplies(c, next', page + 1);
      PagesStep(c, next, page);
      var pages, sent := Pages(c, next, page), Sent(c, next, page);
      var pages', sent' := Pages(c, next', page + 1), Sent(c, next', page + 1);
      SentCount(c, next, page);
      var resp := ReplyAt(c, next, page);
      assert resp == Response(200, pages[0]);
      forall i | 0 < i < |pages|
        ensures i < |sent| && c.reply(page + i, sent[i]) == Response(200, pages[i])
      {
        assert sent[i] == sent'[i - 1] && pages[i] == pages'[i - 1];
        assert page + i == (page + 1) + (i - 1);
      }
    } else {
      PagesStop(c, next, page);
    }
  }

  /** Each request after the first goes to the `next` link of the bundle collected just before it. */
  lemma {:induction false} FollowsNextLinks(c: Client, next: Json, page: nat)
    ensures forall i :: 0 < i < |Sent(c, next, page)| ==>
      i - 1 < |Pages(c, next, page)| && Sent(c, next, page)[i].url == c.follow(Pages(c, next, page)[i - 1])
    decreases c.maxPages - page
  {
    if Continues(c, next, page) && ReplyAt(c, next, page).status == 200 {
      var next' := c.follow(ReplyAt(c, next, page).body);
      FollowsNextLinks(c, next', page + 1);
      CountOnlyFirst(c, next', page + 1);
      SentCount(c, next, page);
      PagesStep(c, next, page);
      var pages, sent := Pages(c, next, page), Sent(c, next, page);
      var pages', sent' := Pages(c, next', page + 1), Sent(c, next', page + 1);
      forall i | 0 < i < |sent|
        ensures i - 1 < |pages| && sent[i].url == c.follow(pages[i - 1])
      {
        assert sent[i] == sent'[i - 1];
        if i > 1 {
          assert pages[i - 1] == pages'[i - 2];
        }
      }
    } else {
      PagesStop(c, next, page);
    }
  }

  /** Raising the page cap only lets the loop collect more: the old result is a prefix of the new. */
  lemma {:induction false} PagesMonotone(c: Client, moreMax: int, next: Json, page: nat)
    requires c.maxPages <= moreMax
    ensures Pages(c, next, page) <= Pages(c.(maxPages := moreMax), next, page)
    decreases moreMax - page
  {
    var c' := c.(maxPages := moreMax);
    if Continues(c, next, page) && ReplyAt(c, next, page).status == 200 {
      assert ReplyAt(c', next, page) == ReplyAt(c, next, page);
      PagesMonotone(c, moreMax, c.follow(ReplyAt(c, next, page).body), page + 1);
      PagesStep(c, next, page);
      PagesStep(c', next, page);
    } else {
      PagesStop(c, next, page);
    }
  }
}
