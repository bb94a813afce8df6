/** Listing messages page by page, newest first, with a cursor. */
module MessagePages {
  import opened Common
  import opened MessageFile
  import opened MessageStore

  const MAX_LIMIT := 100

  datatype Page = Page(messages: seq<Record>, nextBefore: nat, hasMore: bool, state: State)

  /** The messages a cursor leaves: all of them, or those with a smaller number, a prefix of the file. */
  function Left(ms: seq<Record>, before: nat): (n: nat)
    ensures n <= |ms|
  {
    if ms == [] then 0
    else if before == 0 || ms[|ms| - 1].sequence < before then |ms|
    else Left(ms[..|ms| - 1], before)
  }

  function Reversed(ms: seq<Record>): (r: seq<Record>)
    ensures |r| == |ms|
    ensures forall i :: 0 <= i < |ms| ==> r[i] == ms[|ms| - 1 - i]
  {
    if ms == [] then [] else [ms[|ms| - 1]] + Reversed(ms[..|ms| - 1])
  }

  /** Where the page that ends before message n starts. */
  function Low(n: nat, limit: nat): nat {
    if n > limit then n - limit else 0
  }

  /** The last messages that the cursor leaves; the number of the oldest is the next cursor if older ones exist. */
  ghost predicate PageOf(p: Page, f: File, limit: nat, before: nat) {
    var n := Left(f.messages, before);
    var low := Low(n, limit);
    && p.messages == Reversed(f.messages[low..n])
    && p.hasMore == (low > 0)
    && p.nextBefore == (if 0 < low < |f.messages| then f.messages[low].sequence else 0)
    && p.state == StateOf(f)
  }

  lemma {:induction false} LeftIsPrefix(ms: seq<Record>, before: nat, latest: nat)
    requires Good(ms, latest)
    ensures before != 0 ==> forall i :: 0 <= i < |ms| ==> (ms[i].sequence < before <==> i < Left(ms, before))
    ensures before == 0 ==> Left(ms, before) == |ms|
  {
    hide ValidDraft;
    if ms != [] && before != 0 {
      var n := |ms| - 1;
      LeftIsPrefix(ms[..n], before, latest);
      forall i | 0 <= i < n ensures ms[i].sequence < before <==> i < Left(ms, before) {
        assert Before(ms[i], ms[n]);
        assert ms[..n][i] == ms[i];
      }
    }
  }

  method ListMessages(store: Store, limit: int, before: nat) returns (r: Result<Page, Error>)
    ensures Load(store.disk).None? ==> r == Failure(StoreError)
    ensures Load(store.disk).Some? && before > Load(store.disk).value.latest ==> r == Failure(CursorError)
    ensures Load(store.disk).Some? && before <= Load(store.disk).value.latest && !(1 <= limit <= MAX_LIMIT) ==> r == Failure(LimitError)
    ensures Load(store.disk).Some? && before <= Load(store.disk).value.latest && 1 <= limit <= MAX_LIMIT ==>
      r.Success? && PageOf(r.value, Load(store.disk).value, limit, before)
  {
    var loaded := store.LoadMessages();
    if loaded.None? {
      return Failure(StoreError);
    }
    LoadedIsValid(store.disk);
    hide Load, ValidDraft;
    var f := loaded.value;
    if before > f.latest {
      return Failure(CursorError);
    }
    if limit < 1 || limit > MAX_LIMIT {
      return Failure(LimitError);
    }
    var state := store.MessageState(f);
    var page := FillPage(f, limit, before, state);
    return Success(page);
  }

  /** The loop from the newest message down, and the look for an older one once the page is full. */
  method FillPage(f: File, limit: nat, before: nat, state: State) returns (page: Page)
    requires ValidFile(f) && limit > 0 && state == StateOf(f)
    ensures PageOf(page, f, limit, before)
  {
    var ms := f.messages;
    ghost var n := Left(ms, before);
    ghost var top := n;
    LeftIsPrefix(ms, before, f.latest);
    hide ValidFile, Left, Reversed, StateOf, PageOf, Older, Low, Good, ValidDraft;
    var messages: seq<Record> := [];
    assert Reversed(ms[n..n]) == [];
    var index := |ms| - 1;
    while index >= 0
      invariant -1 <= index < |ms| && top == (if index + 1 < n then index + 1 else n)
      invariant messages == Reversed(ms[top..n]) && n - top < limit
    {
      var record := ms[index];
      if before != 0 && record.sequence >= before {
        index := index - 1;
        continue;
      }
      ReversedPrepend(ms, index, n);
      messages, top := messages + [record], index;
      if |messages| == limit {
        var more := HasOlder(ms, index, before);
        FirstIsOlder(f, index, before);
        page := Page(messages, if more then record.sequence else 0, more, state);
        PageFull(f, limit, before, index);
        return;
      }
      index := index - 1;
    }
    page := Page(messages, 0, false, state);
    PageLast(f, limit, before);
  }

  lemma PageFull(f: File, limit: nat, before: nat, low: nat)
    requires low < |f.messages| && Left(f.messages, before) == low + limit && limit > 0
    ensures PageOf(Page(Reversed(f.messages[low..low + limit]), if low > 0 then f.messages[low].sequence else 0, low > 0, StateOf(f)), f, limit, before)
  {
    hide Reversed, StateOf, Left;
  }

  lemma PageLast(f: File, limit: nat, before: nat)
    requires Left(f.messages, before) < limit
    ensures PageOf(Page(Reversed(f.messages[0..Left(f.messages, before)]), 0, false, StateOf(f)), f, limit, before)
  {
    hide Reversed, StateOf, Left;
  }

  /** Every earlier message has a smaller number. */
  lemma FirstIsOlder(f: File, index: nat, before: nat)
    requires ValidFile(f) && index < |f.messages|
    ensures index > 0 ==> Older(f.messages, 0, index, before)
  {
    hide ValidDraft;
    assert index > 0 ==> Before(f.messages[0], f.messages[index]);
  }

  predicate Older(ms: seq<Record>, j: nat, index: nat, before: nat)
    requires j < index < |ms|
  {
    before == 0 || ms[j].sequence < ms[index].sequence
  }

  /** Whether the cursor also leaves a message before this one. */
  method HasOlder(ms: seq<Record>, index: nat, before: nat) returns (more: bool)
    requires index < |ms|
    ensures more <==> exists j: nat :: j < index && Older(ms, j, index, before)
  {
    var older := index - 1;
    while older >= 0
      invariant -1 <= older < index
      invariant forall j: nat :: older < j < index ==> !Older(ms, j, index, before)
    {
      if Older(ms, older, index, before) {
        return true;
      }
      older := older - 1;
    }
    return false;
  }

  lemma ReversedPrepend(ms: seq<Record>, i: nat, n: nat)
    requires i < n <= |ms|
    ensures Reversed(ms[i..n]) == Reversed(ms[i + 1..n]) + [ms[i]]
  {}

  // ---- Following the cursor ----

  function ThePage(f: File, limit: nat, before: nat): (p: Page)
    ensures PageOf(p, f, limit, before)
  {
    var n := Left(f.messages, before);
    var low := Low(n, limit);
    Page(Reversed(f.messages[low..n]), if 0 < low < |f.messages| then f.messages[low].sequence else 0, low > 0, StateOf(f))
  }

  /** The cursor of a page leaves exactly what comes before that page. */
  lemma CursorContinues(f: File, limit: nat, before: nat)
    requires ValidFile(f) && limit > 0 && ThePage(f, limit, before).hasMore
    ensures var n := Left(f.messages, before); var next := ThePage(f, limit, before).nextBefore;
      0 < n - limit < |f.messages| && 0 < next <= f.latest && Left(f.messages, next) == n - limit
  {
    var n := Left(f.messages, before);
    var next := ThePage(f, limit, before).nextBefore;
    LeftIsPrefix(f.messages, next, f.latest);
    hide ValidDraft, Left, Unread, Reversed;
    var ms, low := f.messages, n - limit;
    assert ms[low].sequence == next && Before(ms[low - 1], ms[low]);
  }

  /** The pages a client gets that starts with a cursor and follows the next ones. */
  function Walk(f: File, limit: nat, before: nat): seq<Page>
    requires ValidFile(f) && limit > 0
    decreases Left(f.messages, before)
  {
    var p := ThePage(f, limit, before);
    if p.hasMore then
      CursorContinues(f, limit, before);
      [p] + Walk(f, limit, p.nextBefore)
    else [p]
  }

  function Listed(pages: seq<Page>): seq<Record> {
    if pages == [] then [] else pages[0].messages + Listed(pages[1..])
  }

  function PageCount(n: nat, limit: nat): nat
    requires limit > 0
  {
    if n == 0 then 1 else (n + limit - 1) / limit
  }

  lemma AtLeastOnce(k: int, d: nat)
    requires k >= 1
    ensures k * d >= d
  {
    assert k * d == (k - 1) * d + d;
  }

  lemma SameQuotient(d: nat, q: int, r: int, q': int, r': int)
    requires q * d + r == q' * d + r' && 0 <= r < d && 0 <= r' < d
    ensures q == q'
  {
    Spread(q, q', d);
    Spread(q', q, d);
    if q > q' {
      AtLeastOnce(q - q', d);
    } else if q < q' {
      AtLeastOnce(q' - q, d);
    }
  }

  lemma Spread(a: int, b: int, d: int)
    ensures (a - b) * d == a * d - b * d
  {}

  lemma QuotientIs(a: int, d: int, q: int, r: int)
    requires d > 0 && a == q * d + r && 0 <= r < d
    ensures a / d == q
  {
    SameQuotient(d, q, r, a / d, a % d);
  }

  lemma PageCountStep(n: nat, limit: nat)
    requires 0 < limit < n
    ensures PageCount(n, limit) == 1 + PageCount(n - limit, limit)
  {
    var a := n - limit + limit - 1;
    var q, r := a / limit, a % limit;
    assert a + limit == (q + 1) * limit + r;
    QuotientIs(a + limit, limit, q + 1, r);
  }

  lemma PageCountOne(n: nat, limit: nat)
    requires 0 < limit && n <= limit
    ensures PageCount(n, limit) == 1
  {
    if n > 0 {
      QuotientIs(n + limit - 1, limit, 1, n - 1);
    }
  }

  lemma {:induction false} ReversedSplit(ms: seq<Record>, low: nat)
    requires low <= |ms|
    ensures Reversed(ms) == Reversed(ms[low..]) + Reversed(ms[..low])
  {
    if low == |ms| {
      assert ms[..low] == ms;
    } else {
      var n := |ms| - 1;
      ReversedSplit(ms[..n], low);
      assert ms[..n][low..] == ms[low..][..n - low] && ms[..n][..low] == ms[..low];
    }
  }

  /** What the pages from a cursor show. */
  ghost predicate Visits(pages: seq<Page>, f: File, limit: nat, before: nat)
    requires limit > 0
  {
    VisitsFirst(pages, f.messages, Left(f.messages, before), limit, f.latest)
  }

  ghost predicate VisitsFirst(pages: seq<Page>, ms: seq<Record>, n: nat, limit: nat, latest: nat)
    requires limit > 0 && n <= |ms|
  {
    Listed(pages) == Reversed(ms[..n]) && |pages| == PageCount(n, limit) && Chained(pages, latest, limit)
  }

  /** Exactly the last page has no more; the others are full and have a cursor. */
  ghost predicate Chained(pages: seq<Page>, latest: nat, limit: nat) {
    && (forall i :: 0 <= i < |pages| ==> (pages[i].hasMore <==> i < |pages| - 1))
    && (forall i :: 0 <= i < |pages| - 1 ==> 0 < pages[i].nextBefore <= latest && |pages[i].messages| == limit)
  }

  lemma ChainedPlus(p: Page, rest: seq<Page>, latest: nat, limit: nat)
    requires Chained(rest, latest, limit) && rest != [] && p.hasMore && 0 < p.nextBefore <= latest && |p.messages| == limit
    ensures Chained([p] + rest, latest, limit)
  {
    assert forall i :: 0 <= i < |rest| ==> ([p] + rest)[i + 1] == rest[i];
  }

  lemma OnePage(f: File, limit: nat, before: nat)
    requires limit > 0 && Left(f.messages, before) <= limit
    ensures Visits([ThePage(f, limit, before)], f, limit, before)
  {
    var n, p := Left(f.messages, before), ThePage(f, limit, before);
    PageCountOne(n, limit);
    hide Reversed, Left, PageCount, StateOf;
    assert [p][1..] == [];
    assert Listed([p]) == p.messages + [];
  }

  lemma OneMorePage(f: File, limit: nat, before: nat, rest: seq<Page>)
    requires ValidFile(f) && limit > 0 && ThePage(f, limit, before).hasMore
    requires rest != [] && Visits(rest, f, limit, ThePage(f, limit, before).nextBefore)
    ensures Visits([ThePage(f, limit, before)] + rest, f, limit, before)
  {
    PageBefore(f, limit, before);
    hide ValidFile, Left, Reversed, ThePage, PageOf, VisitsFirst;
    PagesPlus(f.messages, Left(f.messages, before), limit, f.latest, ThePage(f, limit, before), rest);
  }

  lemma PagesPlus(ms: seq<Record>, n: nat, limit: nat, latest: nat, p: Page, rest: seq<Page>)
    requires 0 < limit < n <= |ms| && p.messages == Reversed(ms[n - limit..n]) && |p.messages| == limit && p.hasMore && 0 < p.nextBefore <= latest
    requires rest != [] && VisitsFirst(rest, ms, n - limit, limit, latest)
    ensures VisitsFirst([p] + rest, ms, n, limit, latest)
  {
    hide PageCount, Listed, Chained, Reversed;
    ListedMore(ms, n - limit, n, p, rest);
    PageCountStep(n, limit);
    ChainedPlus(p, rest, latest, limit);
  }

  /** A page with more to come is full, and its cursor leaves what comes before it. */
  lemma PageBefore(f: File, limit: nat, before: nat)
    requires ValidFile(f) && limit > 0 && ThePage(f, limit, before).hasMore
    ensures var n, p := Left(f.messages, before), ThePage(f, limit, before);
      && 0 < n - limit < n <= |f.messages| && p.messages == Reversed(f.messages[n - limit..n]) && |p.messages| == limit
      && 0 < p.nextBefore <= f.latest && Left(f.messages, p.nextBefore) == n - limit
  {
    CursorContinues(f, limit, before);
    hide ValidFile, Left, StateOf;
  }

  lemma ListedMore(ms: seq<Record>, low: nat, n: nat, p: Page, rest: seq<Page>)
    requires low <= n <= |ms| && p.messages == Reversed(ms[low..n]) && Listed(rest) == Reversed(ms[..low])
    ensures Listed([p] + rest) == Reversed(ms[..n])
  {
    hide Listed, Reversed;
    SplitAt(ms, low, n);
    ListedPlus(p, rest);
  }

  lemma ListedPlus(p: Page, rest: seq<Page>)
    ensures Listed([p] + rest) == p.messages + Listed(rest)
  {
    assert ([p] + rest)[1..] == rest;
  }

  lemma SplitAt(ms: seq<Record>, low: nat, n: nat)
    requires low <= n <= |ms|
    ensures Reversed(ms[..n]) == Reversed(ms[low..n]) + Reversed(ms[..low])
  {
    ReversedSplit(ms[..n], low);
    assert ms[..n][low..] == ms[low..n] && ms[..n][..low] == ms[..low];
  }

  /** Following the cursors over an unchanged file visits every message that the first cursor leaves
      once, newest first, on as few pages as the limit allows; exactly the last page has no more. */
  lemma {:induction false} WalkVisitsAll(f: File, limit: nat, before: nat)
    requires ValidFile(f) && 1 <= limit
    ensures Visits(Walk(f, limit, before), f, limit, before)
    decreases Left(f.messages, before)
  {
    var p := ThePage(f, limit, before);
    if p.hasMore {
      CursorContinues(f, limit, before);
      hide ValidFile, Left, Visits, PageOf, ThePage;
      WalkVisitsAll(f, limit, p.nextBefore);
      OneMorePage(f, limit, before, Walk(f, limit, p.nextBefore));
    } else {
      OnePage(f, limit, before);
    }
  }

  /** From the start every stored message is listed. */
  lemma WalkListsTheFile(f: File, limit: nat)
    requires ValidFile(f) && 1 <= limit
    ensures Listed(Walk(f, limit, 0)) == Reversed(f.messages)
    ensures |Walk(f, limit, 0)| == PageCount(|f.messages|, limit)
  {
    WalkVisitsAll(f, limit, 0);
    LeftIsPrefix(f.messages, 0, f.latest);
    assert f.messages[..|f.messages|] == f.messages;
  }
}
