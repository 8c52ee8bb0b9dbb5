/** The paginated question listing of views/pagination_view.py: a small
    state record (the data, the page size, the current page and the page
    count) and the two buttons that move between pages. `show` stands for
    Python's `str()` of a stored value. */
module Pagination {
  import opened Common

  /** Python's `a // b`, which rounds toward negative infinity. */
  function FloorDiv(a: int, b: int): (q: int)
    requires b != 0
    ensures b > 0 ==> b * q <= a < b * q + b
    ensures b < 0 ==> b * q >= a > b * q + b
  {
    if b > 0 then a / b else (-a) / (-b)
  }

  /** A Python slice bound: negative counts from the end, and the result is
      clamped to the sequence. */
  function SliceBound(i: int, n: nat): (b: nat)
    ensures b <= n
    ensures 0 <= i <= n ==> b == i
  {
    if i < 0 then (if i + n < 0 then 0 else i + n) else if i < n then i else n
  }

  /** `s[i:j]` */
  function PySlice<T>(s: seq<T>, i: int, j: int): (r: seq<T>)
    ensures 0 <= i <= j <= |s| ==> r == s[i..j]
    ensures 0 <= i <= |s| <= j ==> r == s[i..]
  {
    var a := SliceBound(i, |s|);
    var b := SliceBound(j, |s|);
    if a < b then s[a..b] else []
  }

  datatype View = View(data: seq<Doc>, topic: string, perPage: int, current: int, total: int)

  /** `PaginationView.__init__`: page 0, and `(len(data) - 1) // per_page + 1`
      pages; a page size of 0 raises ZeroDivisionError. */
  function NewView(data: seq<Doc>, topic: string, perPage: int): (r: Result<View>)
    ensures perPage == 0 <==> r == Err(ZeroDivisionError)
    ensures r.Ok? ==> r.value.data == data && r.value.topic == topic && r.value.perPage == perPage
    ensures r.Ok? ==> r.value.current == 0
    ensures perPage > 0 ==> r.Ok? && (r.value.total == 0 <==> data == [])
    ensures perPage > 0 && data != [] ==>
      (r.value.total - 1) * perPage < |data| <= r.value.total * perPage
  {
    if perPage == 0 then Err(ZeroDivisionError)
    else Ok(View(data, topic, perPage, 0, FloorDiv(|data| - 1, perPage) + 1))
  }

  /** The default page size. */
  const DefaultPerPage: int := 10

  /** With the default size, `n` questions fill `ceil(n / 10)` pages. */
  lemma DefaultPageCount(data: seq<Doc>, topic: string)
    ensures NewView(data, topic, DefaultPerPage).Ok?
    ensures NewView(data, topic, DefaultPerPage).value.total == (|data| + 9) / 10
  {
  }

  /** The page count is the least number of pages of `perPage` questions
      that hold them all. */
  lemma PageCountIsCeiling(data: seq<Doc>, topic: string, perPage: int, pages: int)
    requires perPage > 0 && pages >= 0
    requires pages * perPage >= |data|
    ensures NewView(data, topic, perPage).value.total <= pages
  {
    var t := NewView(data, topic, perPage).value.total;
    if t > pages {
      assert (t - 1) * perPage >= pages * perPage by {
        assert t - 1 >= pages;
        MulMonotone(pages, t - 1, perPage);
      }
    }
  }

  lemma MulMonotone(a: int, b: int, c: int)
    requires a <= b && c > 0
    ensures a * c <= b * c
  {
  }

  /** The state the buttons keep: the current page is a page of the view,
      or 0 when there is none. */
  predicate Valid(v: View)
  {
    0 <= v.current && (v.current <= v.total - 1 || v.current == 0)
  }

  datatype ButtonReply = Edited(content: Result<string>) | Deferred

  /** "{i}. {pregunta} (Answer: {respuesta}, ID: `{id}`)\n" */
  function PageLine(i: int, q: Doc, show: Value -> string): (r: Result<string>)
    ensures r.Ok? <==> "pregunta" in q && "respuesta" in q && "id" in q
    ensures r.Err? ==> r.failure == KeyError
  {
    if "pregunta" in q && "respuesta" in q && "id" in q then
      Ok(IntToString(i) + ". " + show(q["pregunta"]) + " (Answer: " + show(q["respuesta"]) + ", ID: `" + show(q["id"]) + "`)\n")
    else Err(KeyError)
  }

  /** The lines of `qs`, numbered from `first`. */
  function PageLines(qs: seq<Doc>, first: int, show: Value -> string): (r: Result<seq<string>>)
    ensures r.Ok? <==> forall j :: 0 <= j < |qs| ==> "pregunta" in qs[j] && "respuesta" in qs[j] && "id" in qs[j]
    ensures r.Err? ==> r.failure == KeyError
    ensures r.Ok? ==> |r.value| == |qs| && forall j :: 0 <= j < |qs| ==> Ok(r.value[j]) == PageLine(first + j, qs[j], show)
  {
    if exists j :: 0 <= j < |qs| && PageLine(first + j, qs[j], show).Err? then Err(KeyError)
    else Ok(seq(|qs|, j requires 0 <= j < |qs| => PageLine(first + j, qs[j], show).value))
  }

  function PageHeader(topic: string, page: int, total: int): string
  {
    "\U{1F4DA} Questions for `" + topic + "` (Page " + IntToString(page + 1) + "/" + IntToString(total) + "):\n\n"
  }

  /** `format_page(p)`: the slice `data[p*per_page : p*per_page + per_page]`
      numbered from `p*per_page + 1` under the page header. */
  function FormatPage(v: View, p: int, show: Value -> string): (r: Result<string>)
    ensures var start := p * v.perPage;
            var qs := PySlice(v.data, start, start + v.perPage);
      && (r.Ok? <==> PageLines(qs, start + 1, show).Ok?)
      && (r.Ok? ==> r.value == PageHeader(v.topic, p, v.total) + Concat(PageLines(qs, start + 1, show).value))
  {
    var start := p * v.perPage;
    match PageLines(PySlice(v.data, start, start + v.perPage), start + 1, show)
    case Err(e) => Err(e)
    case Ok(lines) => Ok(PageHeader(v.topic, p, v.total) + Concat(lines))
  }

  /** Which questions a page of a view shows: the next `perPage` after the
      `p` pages before it, or fewer on the last page. */
  lemma PageContents(v: View, p: nat)
    requires v.perPage > 0
    requires p * v.perPage <= |v.data|
    ensures var start := p * v.perPage;
            var qs := PySlice(v.data, start, start + v.perPage);
      && |qs| == (if start + v.perPage <= |v.data| then v.perPage else |v.data| - start)
      && forall j :: 0 <= j < |qs| ==> qs[j] == v.data[start + j]
  {
  }

  /** Question `i` is on page `i // per_page` of the view, at position
      `i - (i // per_page) * per_page` of that page's slice; that page
      exists. */
  lemma EveryQuestionOnOnePage(data: seq<Doc>, topic: string, perPage: int, i: nat)
    requires perPage > 0 && i < |data|
    ensures var v := NewView(data, topic, perPage).value;
            var p := FloorDiv(i, perPage);
            var start := p * perPage;
      && 0 <= p < v.total
      && start <= i < start + perPage
      && PySlice(data, start, start + perPage)[i - start] == data[i]
  {
    var v := NewView(data, topic, perPage).value;
    PageOfIndex(i, perPage, |data|, v.total);
    PageContents(v, FloorDiv(i, perPage));
  }

  /** The page arithmetic behind EveryQuestionOnOnePage. */
  lemma PageOfIndex(i: nat, perPage: int, n: int, total: int)
    requires perPage > 0 && i < n
    requires (total - 1) * perPage < n <= total * perPage
    ensures var p := FloorDiv(i, perPage);
      && 0 <= p < total
      && p * perPage <= i < p * perPage + perPage
      && p * perPage <= n
  {
    var p := FloorDiv(i, perPage);
    assert 0 <= p by {
      if p < 0 { MulMonotone(p, -1, perPage); }
    }
    assert p < total by {
      if p >= total { MulMonotone(total, p, perPage); }
    }
  }

  /** `previous_page`: one page back and the message edited, unless on the
      first page, where the click is only acknowledged. */
  function PreviousPage(v: View, show: Value -> string): (r: (View, ButtonReply))
    ensures v.current > 0 ==> r.0 == v.(current := v.current - 1) && r.1 == Edited(FormatPage(r.0, r.0.current, show))
    ensures v.current <= 0 ==> r == (v, Deferred)
    ensures Valid(v) ==> Valid(r.0)
  {
    if v.current > 0 then
      var w := v.(current := v.current - 1);
      (w, Edited(FormatPage(w, w.current, show)))
    else (v, Deferred)
  }

  /** `next_page`: one page on and the message edited, unless on the last
      page (or there are no pages), where the click is only acknowledged. */
  function NextPage(v: View, show: Value -> string): (r: (View, ButtonReply))
    ensures v.current < v.total - 1 ==> r.0 == v.(current := v.current + 1) && r.1 == Edited(FormatPage(r.0, r.0.current, show))
    ensures v.current >= v.total - 1 ==> r == (v, Deferred)
    ensures Valid(v) ==> Valid(r.0)
  {
    if v.current < v.total - 1 then
      var w := v.(current := v.current + 1);
      (w, Edited(FormatPage(w, w.current, show)))
    else (v, Deferred)
  }

  /** One button click: `forward` is "Next", otherwise "Previous". */
  function Click(v: View, forward: bool, show: Value -> string): View
  {
    if forward then NextPage(v, show).0 else PreviousPage(v, show).0
  }

  function Clicks(v: View, forwards: seq<bool>, show: Value -> string): View
    decreases |forwards|
  {
    if |forwards| == 0 then v else Clicks(Click(v, forwards[0], show), forwards[1..], show)
  }

  /** A new view starts in a valid state, and any run of clicks keeps it
      there. */
  lemma {:induction false} ClicksStayValid(data: seq<Doc>, topic: string, perPage: int, forwards: seq<bool>, show: Value -> string)
    requires NewView(data, topic, perPage).Ok?
    ensures Valid(NewView(data, topic, perPage).value)
    ensures Valid(Clicks(NewView(data, topic, perPage).value, forwards, show))
  {
    ClicksKeepValid(NewView(data, topic, perPage).value, forwards, show);
  }

  lemma {:induction false} ClicksKeepValid(v: View, forwards: seq<bool>, show: Value -> string)
    requires Valid(v)
    ensures Valid(Clicks(v, forwards, show))
    ensures Clicks(v, forwards, show).data == v.data && Clicks(v, forwards, show).total == v.total
    decreases |forwards|
  {
    if |forwards| > 0 {
      ClicksKeepValid(Click(v, forwards[0], show), forwards[1..], show);
    }
  }

  /** The two buttons undo each other: back then forward returns to the
      same page, and so does forward then back. */
  lemma ButtonsUndoEachOther(v: View, show: Value -> string)
    requires Valid(v)
    ensures v.current > 0 ==> NextPage(PreviousPage(v, show).0, show).0 == v
    ensures v.current < v.total - 1 ==> PreviousPage(NextPage(v, show).0, show).0 == v
  {
  }
}
