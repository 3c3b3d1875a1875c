/** The page loops that read every issue and every hotspot of a SonarQube project. */
module SonarPaging {
  import opened Wrappers

  const PAGE_SIZE := 500

  datatype RawIssue = RawIssue(
    key: string, rule: string, severity: string, component: string, message: string,
    line: int, startLine: int, endLine: int)

  datatype Issue = Issue(
    key: string, ruleKey: string, severity: string, component: string, message: string,
    line: int, lineEnd: int)

  datatype Hotspot = Hotspot(
    key: string, ruleKey: string, component: string, message: string, line: int, probability: string)

  // What the server answers to a request for a page, numbered from 1.
  datatype Page<T> = Page(items: seq<T>, pageSize: int, total: int)
  type Server<!T> = nat -> Result<Page<T>, string>

  // A text range counts when the server sent one, which has a first line other than 0.
  function ToIssue(i: RawIssue): (r: Issue)
    ensures i.startLine != 0 ==> r.line == i.startLine && r.lineEnd == i.endLine
    ensures i.startLine == 0 ==> r.line == r.lineEnd == i.line
    ensures r.key == i.key && r.ruleKey == i.rule && r.severity == i.severity
    ensures r.component == i.component && r.message == i.message
  {
    var lines := if i.startLine != 0 then (i.startLine, i.endLine) else (i.line, i.line);
    Issue(i.key, i.rule, i.severity, i.component, i.message, lines.0, lines.1)
  }

  function ToIssues(raw: seq<RawIssue>): seq<Issue> {
    seq(|raw|, k requires 0 <= k < |raw| => ToIssue(raw[k]))
  }

  predicate IsLast<T>(page: Page<T>, p: nat) {
    p * page.pageSize >= page.total || |page.items| == 0
  }

  // The answer to the request for page p ends the loop: a failure, or what counts as the last page.
  predicate Ends<T>(server: Server<T>, p: nat) {
    server(p).Ok? ==> IsLast(server(p).value, p)
  }

  // The loop makes its last request for page k.
  ghost predicate StopsAt<T>(server: Server<T>, k: nat) {
    && k >= 1 && Ends(server, k)
    && forall p | 1 <= p < k :: server(p).Ok? && !IsLast(server(p).value, p)
  }

  // The items of pages 1 to k, in order.
  ghost function Pages<T>(server: Server<T>, k: nat): seq<T>
    requires forall p | 1 <= p <= k :: server(p).Ok?
  {
    if k == 0 then [] else Pages(server, k - 1) + server(k).value.items
  }

  // ------------------------------------------------------------ the loops, against any server

  /**
   The loop, cut off after some number of turns. It has ended by then exactly when some page up to
   there ends it, and then with the items of all pages up to the first such page, or its error;
   otherwise it has asked for every page up to there and goes on. So it ends at all exactly when
   some page ends it.
   */
  method SearchIssues(server: Server<RawIssue>, turns: nat)
    returns (r: Option<Result<seq<Issue>, string>>, requests: nat, ghost soFar: seq<Issue>)
    ensures r.Some? <==> exists k: nat | k <= turns :: StopsAt(server, k)
    ensures r.Some? <==> exists p: nat | 1 <= p <= turns ::
      server(p).Ok? ==> p * server(p).value.pageSize >= server(p).value.total || server(p).value.items == []
    ensures r.Some? ==> StopsAt(server, requests)
    ensures r.Some? && server(requests).Ok? ==> r.value == Ok(ToIssues(Pages(server, requests)))
    ensures r.Some? && server(requests).Err? ==> r.value == Err(server(requests).error)
    ensures r.None? ==>
      requests == turns && (forall p | 1 <= p <= turns :: server(p).Ok?) && soFar == ToIssues(Pages(server, turns))
  {
    var out: seq<Issue> := [];
    var page := 1;
    while page <= turns
      invariant 1 <= page <= turns + 1
      invariant forall p: nat | 1 <= p < page :: !Ends(server, p) && server(p).Ok? && !IsLast(server(p).value, p)
      invariant out == ToIssues(Pages(server, page - 1))
    {
      assert Ends(server, page) ==> StopsAt(server, page);
      var answer := server(page);
      if answer.Err? {
        return Some(Err(answer.error)), page, out;
      }
      var parsed := answer.value;
      var k := 0;
      while k < |parsed.items|
        invariant 0 <= k <= |parsed.items|
        invariant out == ToIssues(Pages(server, page - 1) + parsed.items[..k])
      {
        out := out + [ToIssue(parsed.items[k])];
        k := k + 1;
      }
      assert parsed.items[..k] == parsed.items;
      if page * parsed.pageSize >= parsed.total || |parsed.items| == 0 {
        return Some(Ok(out)), page, out;
      }
      page := page + 1;
    }
    return None, turns, out;
  }

  /** The same loop over hotspots. */
  method SearchHotspots(server: Server<Hotspot>, turns: nat)
    returns (r: Option<Result<seq<Hotspot>, string>>, requests: nat, ghost soFar: seq<Hotspot>)
    ensures r.Some? <==> exists k: nat | k <= turns :: StopsAt(server, k)
    ensures r.Some? <==> exists p: nat | 1 <= p <= turns ::
      server(p).Ok? ==> p * server(p).value.pageSize >= server(p).value.total || server(p).value.items == []
    ensures r.Some? ==> StopsAt(server, requests)
    ensures r.Some? && server(requests).Ok? ==> r.value == Ok(Pages(server, requests))
    ensures r.Some? && server(requests).Err? ==> r.value == Err(server(requests).error)
    ensures r.None? ==>
      requests == turns && (forall p | 1 <= p <= turns :: server(p).Ok?) && soFar == Pages(server, turns)
  {
    var out: seq<Hotspot> := [];
    var page := 1;
    while page <= turns
      invariant 1 <= page <= turns + 1
      invariant forall p: nat | 1 <= p < page :: !Ends(server, p) && server(p).Ok? && !IsLast(server(p).value, p)
      invariant out == Pages(server, page - 1)
    {
      assert Ends(server, page) ==> StopsAt(server, page);
      var answer := server(page);
      if answer.Err? {
        return Some(Err(answer.error)), page, out;
      }
      var parsed := answer.value;
      out := out + parsed.items;
      if page * parsed.pageSize >= parsed.total || |parsed.items| == 0 {
        return Some(Ok(out)), page, out;
      }
      page := page + 1;
    }
    return None, turns, out;
  }

  // ------------------------------------------------------------ against a server with a fixed list

  function PageCount(n: nat): nat {
    if n == 0 then 1 else (n + PAGE_SIZE - 1) / PAGE_SIZE
  }

  function Slice<T>(items: seq<T>, p: nat): (r: seq<T>)
    requires p >= 1
    ensures r == if (p - 1) * PAGE_SIZE >= |items| then []
                 else if p * PAGE_SIZE >= |items| then items[(p - 1) * PAGE_SIZE..]
                 else items[(p - 1) * PAGE_SIZE..p * PAGE_SIZE]
  {
    var from, to := (p - 1) * PAGE_SIZE, p * PAGE_SIZE;
    items[if from <= |items| then from else |items|..if to <= |items| then to else |items|]
  }

  // Every request that the server answers at all, it answers from the same list.
  ghost predicate Serves<T>(server: Server<T>, items: seq<T>) {
    forall p | p >= 1 && server(p).Ok? :: server(p).value == Page(Slice(items, p), PAGE_SIZE, |items|)
  }

  lemma PageCountIsLeast(n: nat)
    ensures var k := PageCount(n);
      k >= 1 && k * PAGE_SIZE >= n && (k == 1 || (k - 1) * PAGE_SIZE < n)
  {
  }

  lemma FirstSlices<T>(items: seq<T>, k: nat)
    requires k > 0 && (k == 1 || (k - 1) * PAGE_SIZE < |items|)
    ensures (if (k - 1) * PAGE_SIZE <= |items| then items[..(k - 1) * PAGE_SIZE] else items) + Slice(items, k)
         == if k * PAGE_SIZE <= |items| then items[..k * PAGE_SIZE] else items
  {
  }

  lemma {:induction false} PagesAreAPrefix<T>(server: Server<T>, items: seq<T>, k: nat)
    requires k <= PageCount(|items|)
    requires forall p | 1 <= p <= k :: server(p) == Ok(Page(Slice(items, p), PAGE_SIZE, |items|))
    ensures Pages(server, k) == if k * PAGE_SIZE <= |items| then items[..k * PAGE_SIZE] else items
  {
    PageCountIsLeast(|items|);
    if k > 0 {
      PagesAreAPrefix(server, items, k - 1);
      assert Pages(server, k) == Pages(server, k - 1) + Slice(items, k);
      assert (k - 1) * PAGE_SIZE <= (PageCount(|items|) - 1) * PAGE_SIZE;
      hide Pages, Slice, PageCount;
      FirstSlices(items, k);
    }
  }

  /**
   A server with a fixed list of N items is asked exactly max(1, ceil(N/500)) times, and its pages
   are the list, in order and without repeats.
   */
  lemma ReadsTheWholeList<T>(server: Server<T>, items: seq<T>)
    requires Serves(server, items) && forall p | 1 <= p <= PageCount(|items|) :: server(p).Ok?
    ensures StopsAt(server, PageCount(|items|)) && Pages(server, PageCount(|items|)) == items
    ensures PageCount(|items|) == if items == [] then 1 else (|items| + 499) / 500
  {
    var k := PageCount(|items|);
    PageCountIsLeast(|items|);
    PagesAreAPrefix(server, items, k);
    forall p | 1 <= p < k
      ensures !IsLast(server(p).value, p)
    {
      assert p * PAGE_SIZE <= (k - 1) * PAGE_SIZE;
    }
  }

  /** It stops nowhere else: one failed request among those is reported, and nothing is returned. */
  lemma OneFailureFailsAll<T>(server: Server<T>, items: seq<T>, bad: nat)
    requires Serves(server, items) && 1 <= bad <= PageCount(|items|) && server(bad).Err?
    requires forall p | 1 <= p < bad :: server(p).Ok?
    ensures forall k :: StopsAt(server, k) <==> k == bad
  {
    PageCountIsLeast(|items|);
    forall p | 1 <= p < bad
      ensures !IsLast(server(p).value, p)
    {
      assert p * PAGE_SIZE <= (bad - 1) * PAGE_SIZE <= (PageCount(|items|) - 1) * PAGE_SIZE;
    }
  }

  // ------------------------------------------------------------ a list that changes meanwhile

  // The first q pages come from items. Then some k of the items on them go away, kept is what is
  // left of them, and every later page comes from the shorter list.
  ghost predicate Shrinks<T>(server: Server<T>, items: seq<T>, q: nat, kept: seq<T>) {
    && q >= 1 && q * PAGE_SIZE < |items| && |kept| <= q * PAGE_SIZE
    && (forall p | 1 <= p <= q :: server(p) == Ok(Page(Slice(items, p), PAGE_SIZE, |items|)))
    && var rest := kept + items[q * PAGE_SIZE..];
    && forall p | p > q :: server(p) == Ok(Page(Slice(rest, p), PAGE_SIZE, |rest|))
  }

  function Min(a: nat, b: nat): nat {
    if a <= b then a else b
  }

  lemma NextSlice<T>(rest: seq<T>, q: nat, k: nat)
    requires q < k
    ensures rest[Min(q * PAGE_SIZE, |rest|)..Min((k - 1) * PAGE_SIZE, |rest|)] + Slice(rest, k)
         == rest[Min(q * PAGE_SIZE, |rest|)..Min(k * PAGE_SIZE, |rest|)]
  {
  }

  lemma {:induction false} PagesAfterShrinking<T>(server: Server<T>, items: seq<T>, q: nat, kept: seq<T>, k: nat)
    requires Shrinks(server, items, q, kept) && k >= q
    ensures forall p | 1 <= p <= k :: server(p).Ok?
    ensures var rest := kept + items[q * PAGE_SIZE..];
      Pages(server, k) == items[..q * PAGE_SIZE] + rest[Min(q * PAGE_SIZE, |rest|)..Min(k * PAGE_SIZE, |rest|)]
  {
    if k == q {
      PageCountIsLeast(|items|);
      hide Pages, Slice, PageCount;
      PagesAreAPrefix(server, items, q);
    } else {
      var rest := kept + items[q * PAGE_SIZE..];
      PagesAfterShrinking(server, items, q, kept, k - 1);
      assert Pages(server, k) == Pages(server, k - 1) + Slice(rest, k);
      hide Pages, Slice, Shrinks;
      NextSlice(rest, q, k);
    }
  }

  lemma StopsAfterShrinking<T>(server: Server<T>, items: seq<T>, q: nat, kept: seq<T>)
    requires Shrinks(server, items, q, kept)
    ensures var rest := PageCount(|kept| + |items| - q * PAGE_SIZE);
      StopsAt(server, if rest > q then rest else q + 1)
  {
    var rest := kept + items[q * PAGE_SIZE..];
    var last := if PageCount(|rest|) > q then PageCount(|rest|) else q + 1;
    PageCountIsLeast(|rest|);
    forall p | 1 <= p < last
      ensures server(p).Ok? && !IsLast(server(p).value, p)
    {
      if p <= q {
        assert p * PAGE_SIZE <= q * PAGE_SIZE;
      } else {
        assert p * PAGE_SIZE <= (PageCount(|rest|) - 1) * PAGE_SIZE;
      }
    }
  }

  lemma WhatIsShown<T>(items: seq<T>, kept: seq<T>, n: nat, end: nat)
    requires |kept| <= n <= |items| && end >= |kept| + |items| - n
    ensures var rest := kept + items[n..];
      rest[Min(n, |rest|)..Min(end, |rest|)] == items[Min(n + (n - |kept|), |items|)..]
  {
  }

  /**
   The list has to stay fixed: when k items go away that were on the q pages read so far, the k
   items that follow those pages, or all that follow if they are fewer, are never returned, though
   they were there all along; every other item is returned once.
   */
  lemma ShrinkingListHidesItems<T>(server: Server<T>, items: seq<T>, q: nat, kept: seq<T>)
    requires Shrinks(server, items, q, kept)
    ensures var k := q * PAGE_SIZE - |kept|;
      var rest, shown := PageCount(|items| - k), items[Min(q * PAGE_SIZE + k, |items|)..];
      var last := if rest > q then rest else q + 1;
      && StopsAt(server, last) && (forall p | 1 <= p <= last :: server(p).Ok?)
      && Pages(server, last) == items[..q * PAGE_SIZE] + shown
  {
    var n := q * PAGE_SIZE;
    var rest := kept + items[n..];
    var last := if PageCount(|rest|) > q then PageCount(|rest|) else q + 1;
    PageCountIsLeast(|rest|);
    assert |kept| <= n < |items| && last * PAGE_SIZE >= |rest|;
    hide Pages, Slice, StopsAt, PageCount, Shrinks;
    StopsAfterShrinking(server, items, q, kept);
    PagesAfterShrinking(server, items, q, kept, last);
    hide Min;
    WhatIsShown(items, kept, n, last * PAGE_SIZE);
  }
}
