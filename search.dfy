/** The search handler's filter and ordering: the match conditions built
    from the query, the filters the listings apply, and the descending
    sort by creation or deadline date. */
module JobSearch {
  import opened Outcomes
  import opened Jobs
  import opened Views
  import opened Text

  /** The job fields a search can constrain. */
  datatype SearchField = Title | Position | Field

  /** One `{ field: { $regex: needle, $options: 'i' } }` entry of the search conditions. */
  datatype Condition = Condition(on: SearchField, needle: string)

  /** The query parameters of a search. */
  datatype Query = Query(
    title: Option<string>,
    position: Option<string>,
    field: Option<string>,
    sort: Option<string>)

  /** A query parameter is truthy: sent, and not the empty string. */
  predicate Present(param: Option<string>)
    ensures Present(param) <==> param.Some? && |param.value| > 0
  {
    param.Some? && param.value != ""
  }

  function FieldOf(j: Job, f: SearchField): string
  {
    match f
    case Title => j.title
    case Position => j.position
    case Field => j.field
  }

  /** The meaning of a query: every truthy parameter among title, position and
      field occurs in that field of the job, ignoring case; the others impose
      nothing. */
  predicate QueryMatches(j: Job, q: Query)
  {
    && (Present(q.title) ==> ContainsCI(j.title, q.title.value))
    && (Present(q.position) ==> ContainsCI(j.position, q.position.value))
    && (Present(q.field) ==> ContainsCI(j.field, q.field.value))
  }

  /** A job meets every condition of the list (they are ANDed). */
  predicate Satisfies(j: Job, conds: seq<Condition>)
  {
    forall c | c in conds :: ContainsCI(FieldOf(j, c.on), c.needle)
  }

  /** Builds the search conditions field by field, one for each truthy
      parameter; a job meets them exactly when it matches the query. */
  method BuildConditions(q: Query) returns (conds: seq<Condition>)
    ensures forall c :: c in conds <==>
      || (Present(q.title) && c == Condition(Title, q.title.value))
      || (Present(q.position) && c == Condition(Position, q.position.value))
      || (Present(q.field) && c == Condition(Field, q.field.value))
    ensures forall j: Job :: Satisfies(j, conds) <==> QueryMatches(j, q)
  {
    conds := [];
    if Present(q.title) {
      conds := conds + [Condition(Title, q.title.value)];
    }
    if Present(q.position) {
      conds := conds + [Condition(Position, q.position.value)];
    }
    if Present(q.field) {
      conds := conds + [Condition(Field, q.field.value)];
    }
  }

  /** The document filters the handlers pass to the store. */
  datatype Filter =
    /** The listing's `filter` query object, left uninterpreted. */
    | Arbitrary(holds: Job -> bool)
    /** `{ postedBy: owner }`. */
    | ByOwner(owner: UserId)
    /** The search conditions built from a query. */
    | ByConditions(conds: seq<Condition>)
    /** The meaning of a search query. */
    | ByQuery(q: Query)

  predicate Holds(f: Filter, j: Job)
  {
    match f
    case Arbitrary(p) => p(j)
    case ByOwner(u) => j.postedBy == u
    case ByConditions(conds) => Satisfies(j, conds)
    case ByQuery(q) => QueryMatches(j, q)
  }

  /** The documents that pass the filter, in store order: exactly the
      documents that satisfy it, and no more of them than there are documents. */
  function Where(docs: seq<Job>, f: Filter): (r: seq<Job>)
    ensures |r| <= |docs|
    ensures forall j :: j in r <==> j in docs && Holds(f, j)
    ensures forall j :: multiset(r)[j] == if Holds(f, j) then multiset(docs)[j] else 0
  {
    if docs == [] then []
    else
      assert docs == [docs[0]] + docs[1..];
      if Holds(f, docs[0]) then [docs[0]] + Where(docs[1..], f)
      else Where(docs[1..], f)
  }

  /** Two filters that hold of the same jobs select the same documents. */
  lemma {:induction false} WhereAgrees(docs: seq<Job>, f: Filter, g: Filter)
    requires forall j | j in docs :: Holds(f, j) == Holds(g, j)
    ensures Where(docs, f) == Where(docs, g)
  {
    if docs != [] {
      WhereAgrees(docs[1..], f, g);
    }
  }

  /** Projects every document to its search view. */
  function PublicViews(docs: seq<Job>): (r: seq<PublicView>)
    ensures |r| == |docs|
    ensures forall i | 0 <= i < |docs| :: r[i] == ToPublicView(docs[i])
  {
    seq(|docs|, i requires 0 <= i < |docs| => ToPublicView(docs[i]))
  }

  /** The two sort keys a search can ask for. */
  datatype SortKey = CreatedAt | DeadlineDate

  function KeyOf(v: PublicView, k: SortKey): int
  {
    match k
    case CreatedAt => v.createdAt
    case DeadlineDate => v.deadlineDate
  }

  /** Non-increasing by the key (`sort({ key: -1 })`); ties in any order. */
  predicate SortedDesc(s: seq<PublicView>, k: SortKey)
  {
    forall i, j | 0 <= i < j < |s| :: KeyOf(s[i], k) >= KeyOf(s[j], k)
  }

  /** Inserts `x` into a non-increasing sequence, keeping it non-increasing. */
  function InsertDesc(x: PublicView, s: seq<PublicView>, k: SortKey): (r: seq<PublicView>)
    requires SortedDesc(s, k)
    ensures SortedDesc(r, k)
    ensures multiset(r) == multiset(s) + multiset{x}
    ensures |r| == |s| + 1 && (r[0] == x || (s != [] && r[0] == s[0]))
  {
    if s == [] || KeyOf(s[0], k) <= KeyOf(x, k) then
      ConsSorted(x, s, k);
      [x] + s
    else
      var rest := InsertDesc(x, s[1..], k);
      InsertBehind(x, s, rest, k);
      [s[0]] + rest
  }

  /** Putting the head of `s` before `x` inserted into its tail yields a
      sorted permutation of `s` plus `x`. */
  lemma InsertBehind(x: PublicView, s: seq<PublicView>, rest: seq<PublicView>, k: SortKey)
    requires s != [] && SortedDesc(s, k) && KeyOf(x, k) < KeyOf(s[0], k)
    requires SortedDesc(rest, k) && multiset(rest) == multiset(s[1..]) + multiset{x}
    requires |rest| == |s| && (rest[0] == x || (|s| > 1 && rest[0] == s[1]))
    ensures SortedDesc([s[0]] + rest, k)
    ensures multiset([s[0]] + rest) == multiset(s) + multiset{x}
  {
    assert s == [s[0]] + s[1..];
    ConsSorted(s[0], rest, k);
  }

  /** A head whose key is at least the first key of a sorted tail keeps it sorted. */
  lemma ConsSorted(h: PublicView, t: seq<PublicView>, k: SortKey)
    requires SortedDesc(t, k)
    requires t == [] || KeyOf(t[0], k) <= KeyOf(h, k)
    ensures SortedDesc([h] + t, k)
  {
    var r := [h] + t;
    forall i, j | 0 <= i < j < |r|
      ensures KeyOf(r[i], k) >= KeyOf(r[j], k)
    {
      if i == 0 {
        assert r[j] == t[j - 1];
      } else {
        assert r[i] == t[i - 1] && r[j] == t[j - 1];
      }
    }
  }

  /** The documents reordered non-increasingly by the key: a permutation of
      the input that is sorted by that key. */
  function SortDesc(s: seq<PublicView>, k: SortKey): (r: seq<PublicView>)
    ensures SortedDesc(r, k)
    ensures multiset(r) == multiset(s)
  {
    if s == [] then []
    else
      assert s == [s[0]] + s[1..];
      InsertDesc(s[0], SortDesc(s[1..], k), k)
  }

  /** The key a truthy `sort` value names, if it names one. */
  function SortKeyOf(sort: Option<string>): (r: Option<SortKey>)
    ensures r == Some(CreatedAt) <==> sort == Some("new")
    ensures r == Some(DeadlineDate) <==> sort == Some("most-expired")
  {
    if sort == Some("new") then Some(CreatedAt)
    else if sort == Some("most-expired") then Some(DeadlineDate)
    else None
  }

  /** What the search handler as written sends back. */
  datatype SearchReply = Reply(results: seq<PublicView>) | NoReply

  /** `getJobWithFilter` as written: a truthy `sort` other than "new" or
      "most-expired" falls through both branches, and no response is sent. */
  function SearchAsWritten(docs: seq<Job>, q: Query): (r: SearchReply)
    ensures Present(q.sort) && SortKeyOf(q.sort).None? <==> r == NoReply
    ensures r.Reply? ==> r.results == Search(docs, q)
  {
    var found := PublicViews(Where(docs, ByQuery(q)));
    if Present(q.sort) then
      match SortKeyOf(q.sort)
      case Some(k) => Reply(SortDesc(found, k))
      case None => NoReply
    else Reply(found)
  }

  /** An unrecognised sort leaves the request unanswered. */
  lemma UnknownSortUnanswered(docs: seq<Job>)
    ensures SearchAsWritten(docs, Query(None, None, None, Some("oldest"))) == NoReply
  {
  }

  /** `getJobWithFilter` with an unrecognised sort answered like an absent
      one: the search views of the matching documents, sorted non-increasingly
      by `createdAt` for "new" and by `deadlineDate` for "most-expired",
      otherwise in store order. */
  function Search(docs: seq<Job>, q: Query): (r: seq<PublicView>)
    ensures multiset(r) == multiset(PublicViews(Where(docs, ByQuery(q))))
    ensures q.sort == Some("new") ==> SortedDesc(r, CreatedAt)
    ensures q.sort == Some("most-expired") ==> SortedDesc(r, DeadlineDate)
    ensures SortKeyOf(q.sort).None? ==> r == PublicViews(Where(docs, ByQuery(q)))
  {
    var found := PublicViews(Where(docs, ByQuery(q)));
    match SortKeyOf(q.sort)
    case Some(k) => SortDesc(found, k)
    case None => found
  }

  /** A search returns the view of a job exactly when some stored document
      with that view matches the query. */
  lemma SearchFindsMatches(docs: seq<Job>, q: Query, v: PublicView)
    ensures v in Search(docs, q) <==> exists j | j in docs :: QueryMatches(j, q) && ToPublicView(j) == v
  {
    var found := Where(docs, ByQuery(q));
    var views := PublicViews(found);
    SameElements(Search(docs, q), views, v);
    InPublicViews(found, v);
    if exists j | j in found :: ToPublicView(j) == v {
      var j :| j in found && ToPublicView(j) == v;
      assert j in docs && QueryMatches(j, q);
    }
    if exists j | j in docs :: QueryMatches(j, q) && ToPublicView(j) == v {
      var j :| j in docs && QueryMatches(j, q) && ToPublicView(j) == v;
      assert j in found;
    }
  }

  /** Two sequences with the same multiset hold the same elements. */
  lemma SameElements(a: seq<PublicView>, b: seq<PublicView>, v: PublicView)
    requires multiset(a) == multiset(b)
    ensures v in a <==> v in b
  {
    assert v in a <==> v in multiset(a);
    assert v in b <==> v in multiset(b);
  }

  /** A view is among the projections exactly when some document has it. */
  lemma InPublicViews(docs: seq<Job>, v: PublicView)
    ensures v in PublicViews(docs) <==> exists j | j in docs :: ToPublicView(j) == v
  {
    var views := PublicViews(docs);
    if v in views {
      var i :| 0 <= i < |views| && views[i] == v;
      assert docs[i] in docs;
    }
    if exists j | j in docs :: ToPublicView(j) == v {
      var j :| j in docs && ToPublicView(j) == v;
      var i :| 0 <= i < |docs| && docs[i] == j;
      assert views[i] == v;
    }
  }
}
