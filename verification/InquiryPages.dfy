/** Broker pagination: a complete inquiry or a failure, whatever the server answers. */
module InquiryPages {

  /** One answer: its rows and its continuation token and flag ("" when absent). */
  datatype Page = Page(rows: seq<int>, cts: string, flag: string)

  datatype Inquiry = Complete(pages: seq<Page>) | InvalidContinuation | PageLimit

  /** The broker: what it answers the `n`-th request, asked with this token and flag. */
  type Server = (nat, string, string) -> Page

  predicate LastPage(p: Page) {
    p.flag == "N" || (p.cts == "" && p.flag == "")
  }

  /** The page the `n`-th request gets when every request carries the previous page's continuation. */
  function PageAt(server: Server, n: nat): Page {
    if n == 0 then server(0, "", "")
    else
      var previous := PageAt(server, n - 1);
      server(n, previous.cts, previous.flag)
  }

  function PagesUpTo(server: Server, n: nat): seq<Page> {
    seq(n, i requires 0 <= i < n => PageAt(server, i))
  }

  /** Page `i` points to a page not asked for before. */
  ghost predicate Continues(server: Server, i: nat) {
    !LastPage(PageAt(server, i)) && PageAt(server, i).cts != ""
    && forall j: nat :: j < i ==> PageAt(server, j).cts != PageAt(server, i).cts
  }

  /** The pages before `n` form an unbroken chain of fresh tokens. */
  ghost predicate Chain(server: Server, n: nat) {
    forall i: nat :: i < n ==> Continues(server, i)
  }

  /**
   What an inquiry may answer: all pages up to the last one when an unbroken chain reaches one within
   the limit, and otherwise a failure that carries no pages.
   */
  ghost predicate Answers(server: Server, maxPages: nat, r: Inquiry) {
    (r.Complete? <==> exists n: nat :: n < maxPages && Chain(server, n) && LastPage(PageAt(server, n)))
    && (r.Complete? ==>
          r.pages != [] && |r.pages| <= maxPages && r.pages == PagesUpTo(server, |r.pages|)
          && Chain(server, |r.pages| - 1) && LastPage(r.pages[|r.pages| - 1]))
    && (r.PageLimit? <==> Chain(server, maxPages))
  }

  /** Does the page say that nothing follows, by its flag or by saying nothing at all? */
  predicate SaysLast(p: Page) {
    p.flag == "N" || (p.flag == "" && p.cts == "")
  }

  /** Does page `n` neither end the inquiry nor name a token that was not named before? */
  ghost predicate Breaks(server: Server, n: nat) {
    var p := PageAt(server, n);
    !SaysLast(p) && (p.cts == "" || exists j: nat :: j < n && PageAt(server, j).cts == p.cts)
  }

  /** The answer, decided at the first page that ends or breaks the inquiry. */
  ghost predicate StopsAt(server: Server, maxPages: nat, r: Inquiry) {
    match r
    case Complete(pages) =>
      0 < |pages| <= maxPages && pages == PagesUpTo(server, |pages|) && SaysLast(pages[|pages| - 1])
      && forall i: nat :: i < |pages| - 1 ==> !SaysLast(PageAt(server, i)) && !Breaks(server, i)
    case InvalidContinuation =>
      exists n: nat :: n < maxPages && Breaks(server, n)
                       && forall i: nat :: i < n ==> !SaysLast(PageAt(server, i)) && !Breaks(server, i)
    case PageLimit => forall i: nat :: i < maxPages ==> !SaysLast(PageAt(server, i)) && !Breaks(server, i)
  }

  method FetchInquiryPages(server: Server, maxPages: nat) returns (r: Inquiry)
    ensures Answers(server, maxPages, r)
    ensures StopsAt(server, maxPages, r)
  {
    var pages: seq<Page> := [];
    var cts, flag := "", "";
    var seen: set<string> := {};
    for n := 0 to maxPages
      invariant pages == PagesUpTo(server, n)
      invariant Chain(server, n)
      invariant n == 0 ==> cts == "" && flag == ""
      invariant n > 0 ==> cts == PageAt(server, n - 1).cts && flag == PageAt(server, n - 1).flag
      invariant forall t: string :: t in seen <==> exists j: nat :: j < n && PageAt(server, j).cts == t
    {
      var page := server(n, cts, flag);
      assert page == PageAt(server, n);
      pages := pages + [page];
      if page.flag == "N" || (page.cts == "" && page.flag == "") {
        assert !Continues(server, n);
        AnswerStops(server, maxPages, Complete(pages));
        return Complete(pages);
      }
      if page.cts == "" || page.cts in seen {
        BrokenChain(server, n);
        AnswerStops(server, maxPages, InvalidContinuation);
        return InvalidContinuation;
      }
      seen := seen + {page.cts};
      cts, flag := page.cts, page.flag;
    }
    forall n: nat | n < maxPages ensures !LastPage(PageAt(server, n)) {
      assert Continues(server, n);
    }
    r := PageLimit;
    AnswerStops(server, maxPages, r);
  }

  lemma ContinuesIff(server: Server, i: nat)
    ensures Continues(server, i) <==> !SaysLast(PageAt(server, i)) && !Breaks(server, i)
    ensures LastPage(PageAt(server, i)) <==> SaysLast(PageAt(server, i))
  {
  }

  lemma {:induction false} FirstEnd(server: Server, n: nat)
    requires !Chain(server, n)
    ensures exists m: nat :: m < n && Chain(server, m) && !Continues(server, m)
  {
    if Chain(server, n - 1) {
      assert !Continues(server, n - 1);
    } else {
      FirstEnd(server, n - 1);
    }
  }

  /** An answer is decided at the first page that ends or breaks the inquiry. */
  lemma AnswerStops(server: Server, maxPages: nat, r: Inquiry)
    requires Answers(server, maxPages, r)
    ensures StopsAt(server, maxPages, r)
  {
    forall i: nat
      ensures Continues(server, i) <==> !SaysLast(PageAt(server, i)) && !Breaks(server, i)
      ensures LastPage(PageAt(server, i)) <==> SaysLast(PageAt(server, i))
    {
      ContinuesIff(server, i);
    }
    if r.InvalidContinuation? {
      FirstEnd(server, maxPages);
      var m: nat :| m < maxPages && Chain(server, m) && !Continues(server, m);
      assert !LastPage(PageAt(server, m));
      assert Breaks(server, m);
    }
  }

  /** Once a page neither ends nor continues the inquiry, no completion can follow. */
  lemma BrokenChain(server: Server, n: nat)
    requires Chain(server, n) && !Continues(server, n) && !LastPage(PageAt(server, n))
    ensures forall m: nat :: Chain(server, m) ==> !LastPage(PageAt(server, m))
    ensures forall m: nat :: n < m ==> !Chain(server, m)
  {
    forall m: nat | Chain(server, m) ensures m <= n && !LastPage(PageAt(server, m)) {
      assert n < m ==> Continues(server, n);
      assert m < n ==> Continues(server, m);
    }
  }

  /** A broker that holds `data` in order and hands out one page per token. */
  ghost predicate Serves(server: Server, data: seq<Page>) {
    data != []
    && LastPage(data[|data| - 1])
    && (forall i :: 0 <= i < |data| - 1 ==> !LastPage(data[i]) && data[i].cts != "")
    && (forall i, j :: 0 <= i < j < |data| - 1 ==> data[i].cts != data[j].cts)
    && server(0, "", "") == data[0]
    && (forall n: nat :: 0 < n < |data| ==> server(n, data[n - 1].cts, data[n - 1].flag) == data[n])
  }

  lemma {:induction false} ServedPage(server: Server, data: seq<Page>, n: nat)
    requires Serves(server, data) && n < |data|
    ensures PageAt(server, n) == data[n]
  {
    if n > 0 {
      ServedPage(server, data, n - 1);
    }
  }

  lemma ServedChain(server: Server, data: seq<Page>)
    requires Serves(server, data)
    ensures Chain(server, |data| - 1) && LastPage(PageAt(server, |data| - 1))
    ensures PagesUpTo(server, |data|) == data
    ensures forall n: nat :: |data| <= n ==> !Chain(server, n)
  {
    forall n: nat | n < |data| ensures PageAt(server, n) == data[n] {
      ServedPage(server, data, n);
    }
    forall n: nat | |data| <= n ensures !Chain(server, n) {
      assert Chain(server, n) ==> Continues(server, |data| - 1);
    }
  }

  /** Against such a broker the inquiry returns exactly its data, or the page-limit failure if it is longer. */
  lemma HonestBrokerIsReadCompletely(server: Server, data: seq<Page>, maxPages: nat, r: Inquiry)
    requires Serves(server, data) && Answers(server, maxPages, r)
    ensures r == if |data| <= maxPages then Complete(data) else PageLimit
  {
    ServedChain(server, data);
    if r.Complete? {
      var n: nat := |r.pages| - 1;
      assert PageAt(server, n) == r.pages[n];
      assert n < |data| - 1 ==> Continues(server, n);
    }
    if |data| > maxPages {
      forall i: nat | i < maxPages ensures Continues(server, i) {
      }
    }
  }
}
