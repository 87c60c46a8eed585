/** `listNutritionistAgenda`: the nutritionist's own slots, optionally
    restricted to one date or to an inclusive date range, ordered by date then
    start time, one page at a time. The query itself runs in the database;
    this module models the WHERE clause it builds, the pagination arithmetic,
    and what the returned page and metadata are in terms of the store. */
module Agenda {
  import opened Results
  import opened Db
  import opened Pagination

  /** The `date` part of the WHERE clause. */
  datatype DateFilter = AnyDate | OnDate(day: int) | Between(from: int, to: int)

  datatype Where = Where(nutritionistId: nat, date: DateFilter)

  /** The query-string filters. `date`, `startDate` and `endDate` are `None`
      when missing or empty, since the code tests them for truthiness;
      `page` and `limit` are `None` only when absent, since a destructuring
      default replaces only `undefined`. */
  datatype AgendaQuery = AgendaQuery(
    date: Option<int>, startDate: Option<int>, endDate: Option<int>,
    page: Option<int>, limit: Option<int>)

  datatype Meta = Meta(total: nat, page: int, limit: int, totalPages: nat)

  /** A page of ids with the listing's metadata. */
  datatype Listing = Listing(data: seq<nat>, meta: Meta)

  /** The WHERE object as the service builds it: the owner first, then an
      exact date when `date` is given, then overwritten by the range when
      both `startDate` and `endDate` are given. */
  function BuildWhere(nutritionistId: nat, q: AgendaQuery): (w: Where)
    ensures w.nutritionistId == nutritionistId
    ensures q.startDate.Some? && q.endDate.Some? ==> w.date == Between(q.startDate.value, q.endDate.value)
    ensures !(q.startDate.Some? && q.endDate.Some?) && q.date.Some? ==> w.date == OnDate(q.date.value)
    ensures !(q.startDate.Some? && q.endDate.Some?) && q.date.None? ==> w.date == AnyDate
  {
    var w0 := Where(nutritionistId, AnyDate);
    var w1 := if q.date.Some? then w0.(date := OnDate(q.date.value)) else w0;
    if q.startDate.Some? && q.endDate.Some? then w1.(date := Between(q.startDate.value, q.endDate.value))
    else w1
  }

  /** Whether a slot satisfies a WHERE clause. */
  predicate Matches(w: Where, s: Availability) {
    && s.nutritionistId == w.nutritionistId
    && match w.date
       case AnyDate => true
       case OnDate(d) => s.date == d
       case Between(lo, hi) => lo <= s.date <= hi
  }

  /** The filter the agenda applies, stated directly on the query: always the
      caller's slots; the inclusive range when both bounds are given;
      otherwise the exact date when one is given; otherwise every date. */
  lemma WhereMeaning(nutritionistId: nat, q: AgendaQuery, s: Availability)
    ensures Matches(BuildWhere(nutritionistId, q), s) <==>
              && s.nutritionistId == nutritionistId
              && (if q.startDate.Some? && q.endDate.Some? then q.startDate.value <= s.date <= q.endDate.value
                  else q.date.Some? ==> s.date == q.date.value)
  {
  }

  /** A range bound given without the other is ignored. */
  lemma LoneBoundIgnored(nutritionistId: nat, q: AgendaQuery)
    requires q.startDate.None? || q.endDate.None?
    ensures BuildWhere(nutritionistId, q) == BuildWhere(nutritionistId, q.(startDate := None, endDate := None))
  {
  }

  /** When both range bounds are given the exact date plays no part. */
  lemma RangeOverridesDate(nutritionistId: nat, q: AgendaQuery)
    requires q.startDate.Some? && q.endDate.Some?
    ensures BuildWhere(nutritionistId, q) == BuildWhere(nutritionistId, q.(date := None))
  {
  }

  /** Agenda order: by date, then by start time. */
  predicate AgendaOrdered(st: Store, ids: seq<nat>)
    requires forall i :: 0 <= i < |ids| ==> ids[i] in st.slots
  {
    forall i, j :: 0 <= i < j < |ids| ==>
      var a := st.slots[ids[i]];
      var b := st.slots[ids[j]];
      a.date < b.date || (a.date == b.date && a.startTime <= b.startTime)
  }

  predicate Distinct(ids: seq<nat>) {
    forall i, j :: 0 <= i < j < |ids| ==> ids[i] != ids[j]
  }

  /** The ids of the slots a WHERE clause selects. */
  function MatchingIds(st: Store, w: Where): (ids: set<nat>)
    ensures forall sid :: sid in ids <==> sid in st.slots && Matches(w, st.slots[sid])
  {
    set sid | sid in st.slots && Matches(w, st.slots[sid])
  }

  /** `rows` is the database's answer to `WHERE w ORDER BY date, startTime`:
      every matching slot exactly once, in agenda order. */
  predicate IsOrderedResult(st: Store, w: Where, rows: seq<nat>) {
    && (forall i :: 0 <= i < |rows| ==> rows[i] in st.slots && Matches(w, st.slots[rows[i]]))
    && (forall sid :: sid in st.slots && Matches(w, st.slots[sid]) ==> sid in rows)
    && Distinct(rows)
    && AgendaOrdered(st, rows)
  }

  /** A duplicate-free sequence has as many elements as its set of elements. */
  lemma {:induction false} DistinctCount(rows: seq<nat>)
    requires Distinct(rows)
    ensures |set i | 0 <= i < |rows| :: rows[i]| == |rows|
  {
    if |rows| > 0 {
      var init := rows[..|rows| - 1];
      assert Distinct(init);
      DistinctCount(init);
      var s := set i | 0 <= i < |rows| :: rows[i];
      var s0 := set i | 0 <= i < |init| :: init[i];
      assert s == s0 + {rows[|rows| - 1]};
      assert rows[|rows| - 1] !in s0;
    }
  }

  /** `listNutritionistAgenda(nutritionistId, query)`. `rows` is the ordered
      result set the database computes for the WHERE clause built here; the
      page and the count are read from it in one snapshot. */
  function ListAgenda(st: Store, nutritionistId: nat, q: AgendaQuery, rows: seq<nat>): (r: Listing)
    requires q.page.Some? ==> q.page.value >= 1
    requires q.limit.Some? ==> q.limit.value >= 1
    requires IsOrderedResult(st, BuildWhere(nutritionistId, q), rows)
    ensures r.meta.page == ResolvePage(q.page) && r.meta.limit == ResolveLimit(q.limit)
    ensures r.meta.total == |MatchingIds(st, BuildWhere(nutritionistId, q))|
    ensures r.meta.totalPages == TotalPages(r.meta.total, r.meta.limit)
    ensures r.data == Page(rows, Skip(r.meta.page, r.meta.limit), r.meta.limit)
    ensures forall i :: 0 <= i < |r.data| ==>
              r.data[i] in st.slots && st.slots[r.data[i]].nutritionistId == nutritionistId
              && Matches(BuildWhere(nutritionistId, q), st.slots[r.data[i]])
    ensures AgendaOrdered(st, r.data)
    ensures |r.data| <= r.meta.limit
    ensures |r.data| > 0 <==> r.meta.page <= r.meta.totalPages
  {
    var w := BuildWhere(nutritionistId, q);
    var page := ResolvePage(q.page);
    var limit := ResolveLimit(q.limit);
    var data := Page(rows, Skip(page, limit), limit);
    ResultCount(st, w, rows);
    PageOfResult(st, w, rows, Skip(page, limit), limit);
    ListingShape(rows, page, limit);
    Listing(data, Meta(|rows|, page, limit, TotalPages(|rows|, limit)))
  }

  /** The database's count of the WHERE clause equals the length of its
      ordered result set. */
  lemma ResultCount(st: Store, w: Where, rows: seq<nat>)
    requires IsOrderedResult(st, w, rows)
    ensures |MatchingIds(st, w)| == |rows|
  {
    assert MatchingIds(st, w) == set i | 0 <= i < |rows| :: rows[i];
    DistinctCount(rows);
  }

  /** Every page of an ordered result set holds matching slots in agenda
      order. */
  lemma PageOfResult(st: Store, w: Where, rows: seq<nat>, skip: nat, take: nat)
    requires IsOrderedResult(st, w, rows)
    ensures forall i :: 0 <= i < |Page(rows, skip, take)| ==>
              Page(rows, skip, take)[i] in st.slots && Matches(w, st.slots[Page(rows, skip, take)[i]])
    ensures AgendaOrdered(st, Page(rows, skip, take))
  {
  }
}
