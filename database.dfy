/** The two pieces of `ProductDatabase` in `src/database/database.py` that
    hold logic of their own: the query and parameter list `search_products`
    hands to SQLite, and the filtering and counting of `insert_from_json`.
    SQLite itself is not modelled; `insert_product` is recorded as a call. */
module Database {
  import opened Common
  import opened Text
  import opened ConfigTree

  // ---------------------------------------------------------------------
  // search_products

  /** A bound parameter of the query. */
  datatype Param = TextParam(s: string) | RealParam(r: real) | IntParam(n: int)

  /** One `AND ...` condition of the query with the parameter it binds. */
  datatype Filter = NameLike(name: string) | CategoryLike(category: string)
                  | PriceAtLeast(lo: real) | PriceAtMost(hi: real)

  const SelectAll := "SELECT * FROM products WHERE 1=1"
  /** The SQLite placeholder a bound parameter fills. */
  const Placeholder := "?"
  const OrderAndLimit := " ORDER BY created_at DESC LIMIT " + Placeholder

  /** The column test of a condition, up to its placeholder. */
  function Condition(f: Filter): string {
    match f
    case NameLike(_) => " AND name LIKE "
    case CategoryLike(_) => " AND category LIKE "
    case PriceAtLeast(_) => " AND price >= "
    case PriceAtMost(_) => " AND price <= "
  }

  function ClauseText(f: Filter): string {
    Condition(f) + Placeholder
  }

  /** The parameter a condition binds: LIKE patterns are `%v%`. */
  function ParamOf(f: Filter): Param {
    match f
    case NameLike(n) => TextParam("%" + n + "%")
    case CategoryLike(c) => TextParam("%" + c + "%")
    case PriceAtLeast(lo) => RealParam(lo)
    case PriceAtMost(hi) => RealParam(hi)
  }

  /** Python's truth value of an optional string argument. */
  predicate Given(s: Option<string>) {
    s.Some? && s.value != ""
  }

  /** The conditions `search_products` adds: a name or category only when it
      is a non-empty string, a price bound whenever it is not `None` (so a
      bound of 0 still counts), in the order name, category, minimum, maximum. */
  function Filters(name: Option<string>, category: Option<string>,
                   minPrice: Option<real>, maxPrice: Option<real>): seq<Filter>
  {
    var byName := AddIf([], Given(name), NameLike(name.GetOr("")));
    var byCategory := AddIf(byName, Given(category), CategoryLike(category.GetOr("")));
    var byMin := AddIf(byCategory, minPrice.Some?, PriceAtLeast(minPrice.GetOr(0.0)));
    AddIf(byMin, maxPrice.Some?, PriceAtMost(maxPrice.GetOr(0.0)))
  }

  function AddIf(fs: seq<Filter>, present: bool, f: Filter): seq<Filter> {
    if present then fs + [f] else fs
  }

  /** A name or category condition is present, with that text, exactly
      when that criterion is a non-empty string. */
  lemma FiltersText(name: Option<string>, category: Option<string>,
                    minPrice: Option<real>, maxPrice: Option<real>)
    ensures HasName(Filters(name, category, minPrice, maxPrice), name)
    ensures HasCategory(Filters(name, category, minPrice, maxPrice), category)
  {
  }

  /** A price condition is present exactly when that bound is not `None`. */
  lemma FiltersPrice(name: Option<string>, category: Option<string>,
                     minPrice: Option<real>, maxPrice: Option<real>)
    ensures minPrice.Some? <==> PriceAtLeast(minPrice.GetOr(0.0)) in Filters(name, category, minPrice, maxPrice)
    ensures maxPrice.Some? <==> PriceAtMost(maxPrice.GetOr(0.0)) in Filters(name, category, minPrice, maxPrice)
    ensures forall f | f in Filters(name, category, minPrice, maxPrice) && f.PriceAtLeast? :: minPrice == Some(f.lo)
    ensures forall f | f in Filters(name, category, minPrice, maxPrice) && f.PriceAtMost? :: maxPrice == Some(f.hi)
  {
  }

  /** The conditions stand in the fixed order, each kind at most once. */
  lemma FiltersOrdered(name: Option<string>, category: Option<string>,
                       minPrice: Option<real>, maxPrice: Option<real>)
    ensures var fs := Filters(name, category, minPrice, maxPrice);
      |fs| <= 4 && forall i, j | 0 <= i < j < |fs| :: Rank(fs[i]) < Rank(fs[j])
  {
  }

  /** A name condition is present, with that name, exactly when a name is given. */
  predicate HasName(fs: seq<Filter>, name: Option<string>) {
    (Given(name) ==> NameLike(name.value) in fs) &&
    (forall f | f in fs && f.NameLike? :: Given(name) && f.name == name.value)
  }

  predicate HasCategory(fs: seq<Filter>, category: Option<string>) {
    (Given(category) ==> CategoryLike(category.value) in fs) &&
    (forall f | f in fs && f.CategoryLike? :: Given(category) && f.category == category.value)
  }

  /** The position of a condition's kind in the fixed order. */
  function Rank(f: Filter): nat {
    match f
    case NameLike(_) => 0
    case CategoryLike(_) => 1
    case PriceAtLeast(_) => 2
    case PriceAtMost(_) => 3
  }

  /** The condition texts in order. */
  function ClausesText(fs: seq<Filter>): string {
    ConcatMap(ClauseText, fs)
  }

  function ParamsOf(fs: seq<Filter>): (ps: seq<Param>)
    ensures |ps| == |fs| && forall i | 0 <= i < |fs| :: ps[i] == ParamOf(fs[i])
  {
    seq(|fs|, i requires 0 <= i < |fs| => ParamOf(fs[i]))
  }

  /** The number of `?` placeholders in a text. */
  function Placeholders(s: string): nat {
    multiset(s)['?']
  }

  /** Text without a question mark followed by the placeholder holds one. */
  lemma MarkedOnce(s: string)
    requires '?' !in s
    ensures Placeholders(s + Placeholder) == 1
  {
    assert multiset(s + Placeholder) == multiset(s) + multiset(Placeholder);
  }

  /** Each condition text holds exactly one placeholder. */
  lemma OnePlaceholder(f: Filter)
    ensures Placeholders(ClauseText(f)) == 1
  {
    var c := Condition(f);
    assert '?' !in c by {
      match f
      case NameLike(_) => assert '?' !in " AND name LIKE ";
      case CategoryLike(_) => assert '?' !in " AND category LIKE ";
      case PriceAtLeast(_) => assert '?' !in " AND price >= ";
      case PriceAtMost(_) => assert '?' !in " AND price <= ";
    }
    MarkedOnce(c);
  }

  lemma {:induction false} ClausePlaceholders(fs: seq<Filter>)
    ensures Placeholders(ClausesText(fs)) == |fs|
    decreases |fs|
  {
    if |fs| > 0 {
      var n := |fs| - 1;
      ClausePlaceholders(fs[..n]);
      OnePlaceholder(fs[n]);
      ConcatMapStep(ClauseText, fs, n);
      assert fs[..n + 1] == fs;
      assert multiset(ClausesText(fs[..n]) + ClauseText(fs[n])) ==
             multiset(ClausesText(fs[..n])) + multiset(ClauseText(fs[n]));
    }
  }

  lemma ClausesTextAppend(fs: seq<Filter>, f: Filter)
    ensures ClausesText(fs + [f]) == ClausesText(fs) + ClauseText(f)
  {
    ConcatMapStep(ClauseText, fs + [f], |fs|);
    assert (fs + [f])[..|fs| + 1] == fs + [f] && (fs + [f])[..|fs|] == fs;
  }

  /** A placeholder-free head, a middle and a tail with one placeholder. */
  lemma Framed(head: string, middle: string, tail: string)
    requires '?' !in head && Placeholders(tail) == 1
    ensures StartsWith(head + middle + tail, head)
    ensures Placeholders(head + middle + tail) == Placeholders(middle) + 1
  {
    assert (head + middle + tail)[..|head|] == head;
    assert multiset(head + middle + tail) == multiset(head) + multiset(middle) + multiset(tail);
  }

  lemma SelectAllUnmarked()
    ensures '?' !in SelectAll
  {
  }

  lemma OrderAndLimitMarked()
    ensures Placeholders(OrderAndLimit) == 1
  {
    MarkedOnce(" ORDER BY created_at DESC LIMIT ");
  }

  /** The finished query starts with the selection and holds one
      placeholder per condition plus the limit's. */
  lemma QueryShape(fs: seq<Filter>)
    ensures StartsWith(SelectAll + ClausesText(fs) + OrderAndLimit, SelectAll)
    ensures Placeholders(SelectAll + ClausesText(fs) + OrderAndLimit) == |fs| + 1
  {
    SelectAllUnmarked();
    OrderAndLimitMarked();
    FramedClauses(SelectAll, fs, OrderAndLimit);
  }

  /** The conditions between a placeholder-free head and a tail with one
      placeholder. */
  lemma FramedClauses(head: string, fs: seq<Filter>, tail: string)
    requires '?' !in head && Placeholders(tail) == 1
    ensures StartsWith(head + ClausesText(fs) + tail, head)
    ensures Placeholders(head + ClausesText(fs) + tail) == |fs| + 1
  {
    ClausePlaceholders(fs);
    Framed(head, ClausesText(fs), tail);
  }

  /** Appending one condition's text and parameter extends the query and
      the parameter list of the conditions so far. */
  lemma Extend(head: string, query: string, params: seq<Param>, fs: seq<Filter>, f: Filter)
    requires query == head + ClausesText(fs) && params == ParamsOf(fs)
    ensures query + ClauseText(f) == head + ClausesText(fs + [f])
    ensures params + [ParamOf(f)] == ParamsOf(fs + [f])
  {
    ClausesTextAppend(fs, f);
    ConcatAssoc(head, ClausesText(fs), ClauseText(f));
  }

  lemma NothingAppended(head: string)
    ensures head == head + ClausesText([])
  {
  }

  /** One `if ...: query += ...; params.append(...)` step: when the
      criterion is present, the condition's text and its parameter. */
  method AddCondition(query: string, params: seq<Param>, ghost head: string, ghost fs: seq<Filter>,
                      present: bool, f: Filter)
    returns (query': string, params': seq<Param>)
    requires query == head + ClausesText(fs) && params == ParamsOf(fs)
    ensures query' == head + ClausesText(AddIf(fs, present, f)) && params' == ParamsOf(AddIf(fs, present, f))
  {
    if present {
      Extend(head, query, params, fs, f);
      query' := query + ClauseText(f);
      params' := params + [ParamOf(f)];
    } else {
      query', params' := query, params;
    }
  }

  /** `search_products`' query and parameter list: the `WHERE 1=1`
      selection, the conditions in order, the ordering and the limit; the
      conditions' parameters, then the limit. */
  method SearchQuery(name: Option<string>, category: Option<string>,
                     minPrice: Option<real>, maxPrice: Option<real>, limit: int)
    returns (query: string, params: seq<Param>)
    ensures query == SelectAll + ClausesText(Filters(name, category, minPrice, maxPrice)) + OrderAndLimit
    ensures params == ParamsOf(Filters(name, category, minPrice, maxPrice)) + [IntParam(limit)]
  {
    query, params := Conditions(SelectAll, name, category, minPrice, maxPrice);
    query, params := Close(query, params, SelectAll, Filters(name, category, minPrice, maxPrice), OrderAndLimit, IntParam(limit));
  }

  /** The four optional conditions appended, in order, after `head`. */
  method Conditions(head: string, name: Option<string>, category: Option<string>,
                    minPrice: Option<real>, maxPrice: Option<real>)
    returns (query: string, params: seq<Param>)
    ensures query == head + ClausesText(Filters(name, category, minPrice, maxPrice))
    ensures params == ParamsOf(Filters(name, category, minPrice, maxPrice))
  {
    query := head;
    params := [];
    NothingAppended(head);
    ghost var byName := AddIf([], Given(name), NameLike(name.GetOr("")));
    query, params := AddCondition(query, params, head, [], Given(name), NameLike(name.GetOr("")));
    ghost var byCategory := AddIf(byName, Given(category), CategoryLike(category.GetOr("")));
    query, params := AddCondition(query, params, head, byName, Given(category), CategoryLike(category.GetOr("")));
    ghost var byMin := AddIf(byCategory, minPrice.Some?, PriceAtLeast(minPrice.GetOr(0.0)));
    query, params := AddCondition(query, params, head, byCategory, minPrice.Some?, PriceAtLeast(minPrice.GetOr(0.0)));
    query, params := AddCondition(query, params, head, byMin, maxPrice.Some?, PriceAtMost(maxPrice.GetOr(0.0)));
  }

  /** The ordering and limit closing the query, and the limit's parameter
      closing the list. */
  method Close(query: string, params: seq<Param>, ghost head: string, ghost fs: seq<Filter>, tail: string, last: Param)
    returns (query': string, params': seq<Param>)
    requires query == head + ClausesText(fs) && params == ParamsOf(fs)
    ensures query' == head + ClausesText(fs) + tail && params' == ParamsOf(fs) + [last]
  {
    query' := query + tail;
    params' := params + [last];
  }

  /** The query `search_products` builds starts with the selection, ends
      with the limit, binds the limit last and holds exactly as many
      placeholders as there are parameters. */
  lemma QueryMatchesParams(name: Option<string>, category: Option<string>,
                           minPrice: Option<real>, maxPrice: Option<real>, limit: int)
    ensures var fs := Filters(name, category, minPrice, maxPrice);
      var query := SelectAll + ClausesText(fs) + OrderAndLimit;
      var params := ParamsOf(fs) + [IntParam(limit)];
      StartsWith(query, SelectAll) && query[|query| - |OrderAndLimit|..] == OrderAndLimit &&
      params[|params| - 1] == IntParam(limit) && Placeholders(query) == |params|
  {
    SelectAllUnmarked();
    OrderAndLimitMarked();
    FramedParams(SelectAll, Filters(name, category, minPrice, maxPrice), OrderAndLimit, IntParam(limit));
  }

  /** The framed conditions followed by their parameters and one last
      parameter for the tail's placeholder. */
  lemma FramedParams(head: string, fs: seq<Filter>, tail: string, last: Param)
    requires '?' !in head && Placeholders(tail) == 1
    ensures var query := head + ClausesText(fs) + tail;
      var params := ParamsOf(fs) + [last];
      StartsWith(query, head) && query[|query| - |tail|..] == tail &&
      params[|params| - 1] == last && Placeholders(query) == |params|
  {
    FramedClauses(head, fs, tail);
    var query := head + ClausesText(fs) + tail;
    assert query[|query| - |tail|..] == tail;
  }

  /** With no criteria the query only orders and limits. */
  lemma NoCriteria(limit: int)
    ensures Filters(None, None, None, None) == []
    ensures Filters(Some(""), Some(""), None, None) == []
    ensures ClausesText(Filters(None, None, None, None)) == ""
  {
  }

  /** A zero price bound is still a bound: only `None` leaves it out. */
  lemma ZeroBoundStillFilters(name: Option<string>, category: Option<string>)
    ensures PriceAtLeast(0.0) in Filters(name, category, Some(0.0), None)
    ensures PriceAtMost(0.0) in Filters(name, category, None, Some(0.0))
    ensures |Filters(name, category, Some(0.0), Some(0.0))| ==
            |Filters(name, category, None, None)| + 2
  {
  }

  // ---------------------------------------------------------------------
  // insert_from_json

  /** One `insert_product(name, category, price, source_url)` call. */
  datatype InsertCall = InsertCall(name: string, category: string, price: Node, sourceUrl: Node)

  /** `price.replace('¥', '').replace('$', '').replace(',', '')`. */
  function CleanPrice(s: string): (r: string)
    ensures '¥' !in r && '$' !in r && ',' !in r
  {
    var noCurrency := Remove(Remove(s, '¥'), '$');
    assert '¥' !in noCurrency by {
      assert multiset(noCurrency)['¥'] == multiset(Remove(s, '¥'))['¥'];
    }
    var r := Remove(noCurrency, ',');
    assert '¥' !in r && '$' !in r by {
      assert multiset(r)['¥'] == multiset(noCurrency)['¥'];
      assert multiset(r)['$'] == multiset(noCurrency)['$'];
    }
    r
  }

  /** The price passed on: a string is cleaned and parsed by `float()`
      (`parseFloat`), any failure giving 0; every other value passes as is. */
  function PriceOf(price: Node, parseFloat: string -> Option<real>): Node {
    match price
    case Leaf(Str(s)) =>
      (match parseFloat(CleanPrice(s)) case Some(r) => Leaf(Float(r)) case None => Leaf(Int(0)))
    case _ => price
  }

  /** What one item becomes: an insert call, or nothing when the item is
      skipped as invalid or raises before the call (an item that is not a
      dictionary, or a name or category that is not a string, has no
      `.get`/`.strip` and is reported and dropped). */
  function Prepare(item: Node, parseFloat: string -> Option<real>): Option<InsertCall> {
    if !item.Dict? then None
    else
      var d := item.entries;
      var name := if "name" in d then d["name"] else StrNode("");
      var category := if "category" in d then d["category"] else StrNode("");
      match Labels(name, category)
      case None => None
      case Some((n, c)) =>
        var price := if "price" in d then d["price"] else Leaf(Int(0));
        Some(InsertCall(n, c, PriceOf(price, parseFloat), GetOrNull(d, "source_url")))
  }

  /** The stripped name and category, when both are strings that do not
      strip to nothing. */
  function Labels(name: Node, category: Node): Option<(string, string)> {
    if !(name.Leaf? && name.v.Str? && category.Leaf? && category.v.Str?) then None
    else
      var n := Strip(name.v.s);
      var c := Strip(category.v.s);
      if n == "" || c == "" then None else Some((n, c))
  }

  /** The insert calls made for a list of items, in order. */
  function InsertCalls(items: seq<Node>, parseFloat: string -> Option<real>): seq<InsertCall> {
    ConcatMap(ItemCalls(parseFloat), items)
  }

  /** The call one item makes, if any. */
  function ItemCalls(parseFloat: string -> Option<real>): Node -> seq<InsertCall> {
    item => Emitted(Prepare(item, parseFloat))
  }

  /** The call a prepared item makes, if any. */
  function Emitted(p: Option<InsertCall>): seq<InsertCall> {
    if p.Some? then [p.value] else []
  }

  /** How many of the calls return, rather than raise: `raises` tells the
      calls in which `insert_product` raises an exception other than
      `sqlite3.Error` (an integer price too wide for SQLite raises
      `OverflowError`), which reaches the item's handler and is not counted. */
  function Returned(calls: seq<InsertCall>, raises: InsertCall -> bool): (n: nat)
    ensures n <= |calls|
    decreases |calls|
  {
    if calls == [] then 0
    else Returned(calls[..|calls| - 1], raises) + (if raises(calls[|calls| - 1]) then 0 else 1)
  }

  /** When no call raises, every call is counted. */
  lemma {:induction false} AllReturned(calls: seq<InsertCall>, raises: InsertCall -> bool)
    requires forall c | c in calls :: !raises(c)
    ensures Returned(calls, raises) == |calls|
    decreases |calls|
  {
    if calls != [] {
      assert forall c | c in calls[..|calls| - 1] :: c in calls;
      AllReturned(calls[..|calls| - 1], raises);
    }
  }

  /** A call that raises is never counted. */
  lemma {:induction false} RaisingUncounted(calls: seq<InsertCall>, raises: InsertCall -> bool)
    requires forall c | c in calls :: raises(c)
    ensures Returned(calls, raises) == 0
    decreases |calls|
  {
    if calls != [] {
      assert forall c | c in calls[..|calls| - 1] :: c in calls;
      RaisingUncounted(calls[..|calls| - 1], raises);
    }
  }

  /** `insert_from_json(json_data)`: the insert calls in order and the
      success count it prints (it returns nothing).  A call counts
      whatever `insert_product` returns (it turns a `sqlite3.Error` into
      -1), and only a call that raises another exception is not counted. */
  method InsertFromJson(items: seq<Node>, parseFloat: string -> Option<real>, raises: InsertCall -> bool)
    returns (calls: seq<InsertCall>, successCount: nat)
    ensures calls == InsertCalls(items, parseFloat)
    ensures successCount == Returned(calls, raises) && |calls| <= |items|
  {
    calls := [];
    successCount := 0;
    for i := 0 to |items|
      invariant calls == InsertCalls(items[..i], parseFloat)
      invariant successCount == Returned(calls, raises) && |calls| <= i
    {
      ConcatMapStep(ItemCalls(parseFloat), items, i);
      calls, successCount := InsertItem(calls, successCount, items[i], parseFloat, raises);
    }
    assert items[..|items|] == items;
  }

  /** One item of `insert_from_json`: the call it makes, if any, and the
      count after it. */
  method InsertItem(calls: seq<InsertCall>, successCount: nat, item: Node,
                    parseFloat: string -> Option<real>, raises: InsertCall -> bool)
    returns (calls': seq<InsertCall>, successCount': nat)
    requires successCount == Returned(calls, raises)
    ensures calls' == calls + ItemCalls(parseFloat)(item)
    ensures successCount' == Returned(calls', raises)
  {
    var prepared := Prepare(item, parseFloat);
    calls', successCount' := calls, successCount;
    if prepared.Some? {
      var call := prepared.value;
      assert (calls + [call])[..|calls|] == calls;
      calls' := calls + [call];
      if !raises(call) {
        successCount' := successCount + 1;
      }
    }
  }

  /** Importing two batches one after the other makes the same calls as
      importing them together. */
  lemma InsertCallsAppend(a: seq<Node>, b: seq<Node>, parseFloat: string -> Option<real>)
    ensures InsertCalls(a + b, parseFloat) == InsertCalls(a, parseFloat) + InsertCalls(b, parseFloat)
  {
    ConcatMapAppend(ItemCalls(parseFloat), a, b);
  }

  /** A call whose name and category are non-empty and already stripped. */
  predicate CleanCall(c: InsertCall) {
    c.name != "" && c.category != "" && Strip(c.name) == c.name && Strip(c.category) == c.category
  }

  /** Every call carries a stripped, non-empty name and category. */
  lemma {:induction false} CallsAreValid(items: seq<Node>, parseFloat: string -> Option<real>)
    ensures forall c | c in InsertCalls(items, parseFloat) :: CleanCall(c)
    decreases |items|
  {
    if |items| > 0 {
      var n := |items| - 1;
      CallsAreValid(items[..n], parseFloat);
      PreparedValid(items[n], parseFloat);
      ConcatMapStep(ItemCalls(parseFloat), items, n);
      assert items[..n + 1] == items;
    }
  }

  /** A prepared call is clean: `strip()` of a stripped text changes
      nothing. */
  lemma PreparedValid(item: Node, parseFloat: string -> Option<real>)
    ensures Prepare(item, parseFloat).Some? ==> CleanCall(Prepare(item, parseFloat).value)
  {
    if item.Dict? {
      var d := item.entries;
      LabelsClean(if "name" in d then d["name"] else StrNode(""),
                  if "category" in d then d["category"] else StrNode(""));
    }
  }

  lemma LabelsClean(name: Node, category: Node)
    ensures Labels(name, category).Some? ==>
      var (n, c) := Labels(name, category).value;
      n != "" && c != "" && Strip(n) == n && Strip(c) == c
  {
    if Labels(name, category).Some? {
      StripUnchanged(Strip(name.v.s));
      StripUnchanged(Strip(category.v.s));
    }
  }

  /** An item is counted exactly when it is a dictionary whose name and
      category are strings that do not strip to nothing. */
  lemma ItemCounted(item: Node, parseFloat: string -> Option<real>)
    ensures InsertCalls([item], parseFloat) != [] <==>
              item.Dict? &&
              (var name := if "name" in item.entries then item.entries["name"] else StrNode("");
               var category := if "category" in item.entries then item.entries["category"] else StrNode("");
               name.Leaf? && name.v.Str? && Strip(name.v.s) != "" &&
               category.Leaf? && category.v.Str? && Strip(category.v.s) != "")
  {
    ConcatMapStep(ItemCalls(parseFloat), [item], 0);
    assert [item][..1] == [item] && [item][..0] == [];
  }

  /** A price string that does not parse after cleaning is stored as 0; a
      price that is not a string is passed on unchanged. */
  lemma PriceFallback(price: Node, parseFloat: string -> Option<real>)
    ensures price.Leaf? && price.v.Str? && parseFloat(CleanPrice(price.v.s)).None? ==>
              PriceOf(price, parseFloat) == Leaf(Int(0))
    ensures !(price.Leaf? && price.v.Str?) ==> PriceOf(price, parseFloat) == price
  {
  }
}
