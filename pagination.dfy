/** The pagination arithmetic of the job listings: the page count, the
    slice a `skip`/`limit` query returns, and the `currentPage` echo. */
module Pagination {
  import opened Outcomes

  /** `Math.ceil(matching / limit)`. A limit of 0 gives Infinity (or NaN when
      nothing matches), which the JSON response carries as null: `None`. */
  function TotalPages(matching: nat, limit: nat): (r: Option<nat>)
    ensures r.None? <==> limit == 0
    ensures r.Some? ==> matching <= r.value * limit && (r.value - 1) * limit < matching
  {
    if limit == 0 then None
    else
      var q := (matching + limit - 1) / limit;
      assert q * limit + (matching + limit - 1) % limit == matching + limit - 1;
      Some(q)
  }

  /** The `ceil` characterisation fixes the page count: no other count fits. */
  lemma {:induction false} TotalPagesUnique(matching: nat, limit: nat, pages: nat)
    requires limit > 0
    requires matching <= pages * limit && (pages - 1) * limit < matching
    ensures TotalPages(matching, limit) == Some(pages)
  {
    var t := TotalPages(matching, limit).value;
    if t < pages {
      MulMonotone(t, pages - 1, limit);
    } else if pages < t {
      MulMonotone(pages, t - 1, limit);
    }
  }

  lemma MulMonotone(a: nat, b: nat, c: nat)
    requires a <= b
    ensures a * c <= b * c
  {
  }

  /** The documents `.skip(skip).limit(limit)` returns: the ones from
      position `skip` on, at most `limit` of them (a limit of 0 means no
      limit), and none when `skip` is past the end. */
  function PageOf<T>(matches: seq<T>, skip: nat, limit: nat): (r: seq<T>)
    ensures skip >= |matches| ==> r == []
    ensures skip < |matches| && limit == 0 ==> |r| == |matches| - skip
    ensures skip < |matches| && limit > 0 ==> |r| == if skip + limit <= |matches| then limit else |matches| - skip
    ensures forall i | 0 <= i < |r| :: skip + i < |matches| && r[i] == matches[skip + i]
  {
    if skip >= |matches| then []
    else if limit == 0 || |matches| < skip + limit then matches[skip..]
    else matches[skip..skip + limit]
  }

  /** Every document of a page is one of the matches. */
  lemma PageOfMember<T>(matches: seq<T>, skip: nat, limit: nat, x: T)
    requires x in PageOf(matches, skip, limit)
    ensures x in matches
  {
    var page := PageOf(matches, skip, limit);
    var i :| 0 <= i < |page| && page[i] == x;
    assert matches[skip + i] == x;
  }

  /** A page never holds more than the limit. */
  lemma PageWithinLimit<T>(matches: seq<T>, skip: nat, limit: nat)
    requires limit > 0
    ensures |PageOf(matches, skip, limit)| <= limit
  {
  }

  /** Every page from `p` up to page `total` (exclusive), each `limit` long, joined. */
  function PagesFrom<T>(matches: seq<T>, limit: nat, p: nat, total: nat): seq<T>
    decreases total - p
  {
    if total <= p then []
    else PageOf(matches, p * limit, limit) + PagesFrom(matches, limit, p + 1, total)
  }

  /** Walking the pages 0, 1, ..., totalPages - 1 (with `skip = page * limit`)
      returns every match exactly once, in order. */
  lemma PagesCoverMatches<T>(matches: seq<T>, limit: nat)
    requires limit > 0
    ensures PagesFrom(matches, limit, 0, TotalPages(|matches|, limit).value) == matches
  {
    PagesFromRest(matches, limit, 0, TotalPages(|matches|, limit).value);
    assert matches[0..] == matches;
  }

  /** The pages from `p` on hold exactly the matches from position `p * limit` on. */
  lemma {:induction false} PagesFromRest<T>(matches: seq<T>, limit: nat, p: nat, total: nat)
    requires limit > 0 && total == TotalPages(|matches|, limit).value
    requires p <= total
    ensures PagesFrom(matches, limit, p, total) == matches[Min(p * limit, |matches|)..]
    decreases total - p
  {
    if p < total {
      MulMonotone(p, total - 1, limit);
      var here, next := p * limit, (p + 1) * limit;
      MulSucc(p, limit);
      PagesFromRest(matches, limit, p + 1, total);
      assert PageOf(matches, here, limit) == matches[here..Min(next, |matches|)];
      assert matches[here..] == matches[here..Min(next, |matches|)] + matches[Min(next, |matches|)..];
    }
  }

  function Min(a: int, b: int): int
  {
    if a <= b then a else b
  }

  lemma MulSucc(p: nat, limit: nat)
    ensures (p + 1) * limit == p * limit + limit
  {
  }

  /** 23 matches at 10 per page make 3 pages, and the third page holds 3. */
  lemma TwentyThreeByTen<T>(matches: seq<T>)
    requires |matches| == 23
    ensures TotalPages(23, 10) == Some(3)
    ensures |PageOf(matches, 20, 10)| == 3
  {
  }

  /** What the response echoes as `currentPage`. */
  datatype PageField =
    /** The `page` parameter was not sent and is echoed as `undefined`. */
    | Missing
    /** The raw string of the `page` parameter. */
    | Raw(text: string)
    /** The `page` parameter coerced to a number. */
    | Number(value: nat)
    /** The coercion failed (NaN, carried as null). */
    | NotANumber

  /** The pagination object of a listing response. */
  datatype PageInfo = PageInfo(
    matchingResults: nat,
    totalPages: Option<nat>,
    currentPage: PageField,
    pageSize: nat,
    returnedResults: nat)

  /** A listing response: the pagination object and the page of documents. */
  datatype Listing<T> = Listing(pagination: PageInfo, data: seq<T>)

  predicate IsDigit(c: char)
  {
    '0' <= c <= '9'
  }

  function DigitValue(c: char): nat
    requires IsDigit(c)
  {
    c as int - '0' as int
  }

  /** The value of a string of decimal digits, most significant first. */
  function DecimalValue(s: string): (n: nat)
    requires forall i | 0 <= i < |s| :: IsDigit(s[i])
    ensures |s| == 0 ==> n == 0
  {
    if s == [] then 0
    else 10 * DecimalValue(s[..|s| - 1]) + DigitValue(s[|s| - 1])
  }

  /** The decimal digits of `n`, most significant first, without leading zeros. */
  function Digits(n: nat): (s: string)
    ensures forall i | 0 <= i < |s| :: IsDigit(s[i])
    ensures |s| > 0
  {
    if n < 10 then [('0' as int + n) as char]
    else Digits(n / 10) + [('0' as int + n % 10) as char]
  }

  /** Reading back the digits of a number gives the number. */
  lemma {:induction false} DecimalOfDigits(n: nat)
    ensures DecimalValue(Digits(n)) == n
  {
    var s := Digits(n);
    if n >= 10 {
      DecimalOfDigits(n / 10);
      assert s[..|s| - 1] == Digits(n / 10);
    }
  }

  /** Unary `+` on a `page` parameter: absent gives NaN, the empty string 0,
      a string of decimal digits its value, anything else NaN. */
  function Coerce(page: Option<string>): (r: PageField)
    ensures !r.Missing? && !r.Raw?
    ensures page.Some? && (forall i | 0 <= i < |page.value| :: IsDigit(page.value[i]))
            ==> r == Number(DecimalValue(page.value))
    ensures page.None? ==> r == NotANumber
  {
    match page
    case None => NotANumber
    case Some(s) =>
      if forall i | 0 <= i < |s| :: IsDigit(s[i]) then Number(DecimalValue(s)) else NotANumber
  }

  /** The pages-by-number round trip: asking for page `n` (as digits) echoes `n`. */
  lemma CoerceDigits(n: nat)
    ensures Coerce(Some(Digits(n))) == Number(n)
  {
    DecimalOfDigits(n);
  }

  /** The `skip` a listing uses when the query sends none. */
  const DefaultSkip: nat := 0

  /** The `limit` a listing uses when the query sends none. */
  const DefaultLimit: nat := 10

  /** A query parameter, or its default when the query does not send it. */
  function OrDefault(param: Option<nat>, default: nat): (r: nat)
    ensures param.None? ==> r == default
    ensures param.Some? ==> r == param.value
  {
    match param
    case None => default
    case Some(n) => n
  }

  /** The response of a listing over `matches` for one `skip`/`limit` query. */
  function Paginate<T>(matches: seq<T>, currentPage: PageField, skip: nat, limit: nat): (r: Listing<T>)
    ensures r.data == PageOf(matches, skip, limit)
    ensures r.pagination.returnedResults == |r.data|
    ensures r.pagination.matchingResults == |matches|
    ensures r.pagination.totalPages == TotalPages(|matches|, limit)
    ensures r.pagination.currentPage == currentPage && r.pagination.pageSize == limit
  {
    var data := PageOf(matches, skip, limit);
    Listing(PageInfo(|matches|, TotalPages(|matches|, limit), currentPage, limit, |data|), data)
  }
}
