/**
 * The admin data routes (routes/database.js): the parameterised query that
 * `/kararlar` builds, the guard of `/search`, and the keyed merge of `/sync`
 * with its per-table counters.  Running SQL is an oracle; the tables `/sync`
 * writes are maps keyed by their primary keys.
 */
module AdminData {
  import opened Text
  import Retrieval

  // ---------------------------------------------------------------------------
  // `/kararlar`: SQL text and parameter list built side by side

  /** A piece of SQL text, or the placeholder `$n`. */
  datatype Fragment = Sql(text: string) | Slot(n: nat)

  /** A bound parameter: an ILIKE pattern, a query-string value read with parseInt (None for NaN), or a value passed as given. */
  datatype Param = Pattern(text: string) | Number(value: Option<int>) | Raw(text: string)

  function RenderFragment(f: Fragment): string {
    match f
    case Sql(t) => t
    case Slot(n) => "$" + NatToString(n)
  }

  /** The SQL text the fragments spell. */
  function Render(fs: seq<Fragment>): string
    decreases |fs|
  {
    if fs == [] then "" else Render(fs[..|fs| - 1]) + RenderFragment(fs[|fs| - 1])
  }

  /** The placeholder numbers, in the order they appear in the text. */
  function Slots(fs: seq<Fragment>): seq<nat>
    decreases |fs|
  {
    if fs == [] then [] else Slots(fs[..|fs| - 1]) + (if fs[|fs| - 1].Slot? then [fs[|fs| - 1].n] else [])
  }

  /** 1, 2, ..., n */
  function Numbered(n: nat): (r: seq<nat>)
    ensures |r| == n && forall j :: 0 <= j < n ==> r[j] == j + 1
  {
    if n == 0 then [] else Numbered(n - 1) + [n]
  }

  const ListBase := "\n      SELECT \n        id, karar_tarihi, basvuru_no, rg_tarih_sayi, mahkeme, \n"
                    + "        üyeler, raportor, basvurucu, karar_ozeti, degerlendirme, \n"
                    + "        giderim, hüküm, baslik, url\n      FROM kararlar \n      WHERE 1=1\n    "
  const OrderAndLimit := " ORDER BY karar_tarihi DESC LIMIT "
  const OffsetText := " OFFSET "
  const MahkemeClause := " AND mahkeme ILIKE "
  const BaslikClause := " AND baslik ILIKE "

  /** The filters that are given, as (clause text, value), in the order the route tests them. */
  function Filters(mahkeme: Option<string>, baslik: Option<string>): (fs: seq<(string, string)>)
    ensures |fs| == (if Present(mahkeme) then 1 else 0) + (if Present(baslik) then 1 else 0)
    ensures Present(mahkeme) ==> fs[0] == (MahkemeClause, mahkeme.value)
    ensures Present(baslik) ==> fs[|fs| - 1] == (BaslikClause, baslik.value)
  {
    (if Present(mahkeme) then [(MahkemeClause, mahkeme.value)] else [])
    + (if Present(baslik) then [(BaslikClause, baslik.value)] else [])
  }

  /** A filter's clause text followed by its placeholder `$n`. */
  function Clause(text: string, n: nat): seq<Fragment> {
    [Sql(text), Slot(n)]
  }

  /** One clause per filter, numbered from 1. */
  function FilterFragments(fs: seq<(string, string)>): (r: seq<Fragment>)
    ensures |r| == 2 * |fs|
    ensures forall j :: 0 <= j < |fs| ==> r[2 * j] == Sql(fs[j].0) && r[2 * j + 1] == Slot(j + 1)
    decreases |fs|
  {
    if fs == [] then []
    else
      var prev := FilterFragments(fs[..|fs| - 1]);
      assert forall j :: 0 <= j < |fs| - 1 ==> fs[..|fs| - 1][j] == fs[j];
      prev + Clause(fs[|fs| - 1].0, |fs|)
  }

  /** One `%value%` pattern per filter. */
  function FilterParams(fs: seq<(string, string)>): (r: seq<Param>)
    ensures |r| == |fs| && forall j :: 0 <= j < |fs| ==> r[j] == Pattern("%" + fs[j].1 + "%")
  {
    seq(|fs|, j requires 0 <= j < |fs| => Pattern("%" + fs[j].1 + "%"))
  }

  /** `parseInt` of a query-string value, or the destructuring default when the value is absent. */
  function NumberOr(o: Option<string>, default: nat): Option<int> {
    if o.None? then Some(default) else ParseInt(o.value)
  }

  /** `?limit=0x10` binds 16, as `parseInt` reads a hexadecimal prefix; no limit binds 50. */
  lemma HexLimitBinds()
    ensures NumberOr(Some("0x10"), 50) == Some(16) && NumberOr(None, 50) == Some(50)
  {
    ParseIntOfHex('x', "10");
    assert ['0', 'x'] + "10" == "0x10";
    assert HexDigitsValue("10") == 16 by {
      assert "10"[..1] == "1" && "1"[..0] == "";
    }
  }

  /** ` ORDER BY karar_tarihi DESC LIMIT $k OFFSET $k+1` */
  function ListTail(k: nat): seq<Fragment> {
    [Sql(OrderAndLimit), Slot(k), Sql(OffsetText), Slot(k + 1)]
  }

  /** The SQL of `/kararlar`, as fragments. */
  function ListFragments(mahkeme: Option<string>, baslik: Option<string>): seq<Fragment> {
    var fs := Filters(mahkeme, baslik);
    [Sql(ListBase)] + FilterFragments(fs) + ListTail(|fs| + 1)
  }

  /** The parameters of `/kararlar`. */
  function ListParams(mahkeme: Option<string>, baslik: Option<string>, limit: Option<string>, offset: Option<string>): seq<Param> {
    FilterParams(Filters(mahkeme, baslik)) + [Number(NumberOr(limit, 50)), Number(NumberOr(offset, 0))]
  }

  lemma SlotsOne(f: Fragment)
    ensures Slots([f]) == if f.Slot? then [f.n] else []
  {
    assert [f][..0] == [];
  }

  lemma {:induction false} SlotsConcat(a: seq<Fragment>, b: seq<Fragment>)
    ensures Slots(a + b) == Slots(a) + Slots(b)
    decreases |b|
  {
    if b != [] {
      var b' := b[..|b| - 1];
      assert (a + b)[..|a + b| - 1] == a + b';
      SlotsConcat(a, b');
    } else {
      assert a + b == a;
    }
  }

  lemma SlotsPair(x: Fragment, y: Fragment)
    ensures Slots([x, y]) == Slots([x]) + Slots([y])
  {
    SlotsConcat([x], [y]);
    assert [x] + [y] == [x, y];
  }

  lemma {:induction false} FilterSlots(fs: seq<(string, string)>)
    ensures Slots(FilterFragments(fs)) == Numbered(|fs|)
    decreases |fs|
  {
    if fs != [] {
      var c := Clause(fs[|fs| - 1].0, |fs|);
      FilterSlots(fs[..|fs| - 1]);
      SlotsConcat(FilterFragments(fs[..|fs| - 1]), c);
      SlotsPair(c[0], c[1]);
      SlotsOne(c[0]);
      SlotsOne(c[1]);
    }
  }

  lemma TailSlots(k: nat)
    ensures Slots(ListTail(k)) == [k, k + 1]
  {
    var t := ListTail(k);
    assert t == [t[0], t[1]] + [t[2], t[3]];
    SlotsConcat([t[0], t[1]], [t[2], t[3]]);
    SlotsPair(t[0], t[1]);
    SlotsPair(t[2], t[3]);
    SlotsOne(t[0]);
    SlotsOne(t[1]);
    SlotsOne(t[2]);
    SlotsOne(t[3]);
  }

  lemma NumberedTwoMore(n: nat)
    ensures Numbered(n + 2) == Numbered(n) + [n + 1, n + 2]
  {
    assert Numbered(n + 2) == Numbered(n + 1) + [n + 2];
    assert Numbered(n + 1) == Numbered(n) + [n + 1];
  }

  /**
   * The placeholders of the listing query are $1, $2, ..., one for each
   * parameter and in the parameters' order: so the highest placeholder is
   * the number of parameters.
   */
  lemma ListSlotsNumbered(mahkeme: Option<string>, baslik: Option<string>, limit: Option<string>, offset: Option<string>)
    ensures Slots(ListFragments(mahkeme, baslik)) == Numbered(|ListParams(mahkeme, baslik, limit, offset)|)
  {
    var fs := Filters(mahkeme, baslik);
    QuerySlots(ListBase, fs);
    assert ListFragments(mahkeme, baslik) == [Sql(ListBase)] + FilterFragments(fs) + ListTail(|fs| + 1);
    assert |ListParams(mahkeme, baslik, limit, offset)| == |FilterParams(fs)| + 2 == |fs| + 2;
  }

  lemma QuerySlots(base: string, fs: seq<(string, string)>)
    ensures Slots([Sql(base)] + FilterFragments(fs) + ListTail(|fs| + 1)) == Numbered(|fs| + 2)
  {
    SlotsConcat([Sql(base)] + FilterFragments(fs), ListTail(|fs| + 1));
    SlotsConcat([Sql(base)], FilterFragments(fs));
    SlotsOne(Sql(base));
    FilterSlots(fs);
    TailSlots(|fs| + 1);
    NumberedTwoMore(|fs|);
    var n := Numbered(|fs|);
    assert Slots([Sql(base)] + FilterFragments(fs)) == [] + n == n;
  }

  /** The listing query and its parameters for any opening text and any LIMIT and OFFSET values. */
  lemma QueryBinding(base: string, fs: seq<(string, string)>, limit: Param, offset: Param)
    ensures var q := [Sql(base)] + FilterFragments(fs) + ListTail(|fs| + 1);
            var ps := FilterParams(fs) + [limit, offset];
            |ps| == |fs| + 2 && |q| == 2 * |fs| + 5
            && (forall j :: 0 <= j < |fs| ==>
                  q[2 * j + 1] == Sql(fs[j].0) && q[2 * j + 2] == Slot(j + 1) && ps[j] == Pattern("%" + fs[j].1 + "%"))
            && q[2 * |fs| + 1] == Sql(OrderAndLimit) && q[2 * |fs| + 2] == Slot(|fs| + 1) && ps[|fs|] == limit
            && q[2 * |fs| + 3] == Sql(OffsetText) && q[2 * |fs| + 4] == Slot(|fs| + 2) && ps[|fs| + 1] == offset
  {
    var ff, fp := FilterFragments(fs), FilterParams(fs);
    var q := [Sql(base)] + ff + ListTail(|fs| + 1);
    var ps := fp + [limit, offset];
    forall j | 0 <= j < |fs|
      ensures q[2 * j + 1] == Sql(fs[j].0) && q[2 * j + 2] == Slot(j + 1) && ps[j] == Pattern("%" + fs[j].1 + "%")
    {
      assert q[2 * j + 1] == ff[2 * j];
      assert q[(2 * j + 1) + 1] == ff[2 * j + 1];
      assert ps[j] == fp[j];
    }
  }

  /**
   * Placeholder $j+1 of the listing query follows the clause of the j-th
   * filter (from 0) and binds that filter's `%value%`; LIMIT and OFFSET
   * follow, bound to the last two parameters.
   */
  lemma ListBinding(mahkeme: Option<string>, baslik: Option<string>, limit: Option<string>, offset: Option<string>)
    ensures var fs := Filters(mahkeme, baslik);
            var q := ListFragments(mahkeme, baslik);
            var ps := ListParams(mahkeme, baslik, limit, offset);
            |ps| == |fs| + 2 && |q| == 2 * |fs| + 5
            && (forall j :: 0 <= j < |fs| ==>
                  q[2 * j + 1] == Sql(fs[j].0) && q[2 * j + 2] == Slot(j + 1) && ps[j] == Pattern("%" + fs[j].1 + "%"))
            && q[2 * |fs| + 1] == Sql(OrderAndLimit) && q[2 * |fs| + 2] == Slot(|fs| + 1)
            && ps[|fs|] == Number(NumberOr(limit, 50))
            && q[2 * |fs| + 3] == Sql(OffsetText) && q[2 * |fs| + 4] == Slot(|fs| + 2)
            && ps[|fs| + 1] == Number(NumberOr(offset, 0))
  {
    var fs := Filters(mahkeme, baslik);
    QueryBinding(ListBase, fs, Number(NumberOr(limit, 50)), Number(NumberOr(offset, 0)));
    assert ListFragments(mahkeme, baslik) == [Sql(ListBase)] + FilterFragments(fs) + ListTail(|fs| + 1);
  }

  /** Without filters: `LIMIT $1 OFFSET $2`, bound to 50 and 0 when the query string gives neither. */
  lemma ListDefaults()
    ensures ListParams(None, None, None, None) == [Number(Some(50)), Number(Some(0))]
    ensures Slots(ListFragments(None, None)) == [1, 2]
  {
    ListSlotsNumbered(None, None, None, None);
    assert Numbered(2) == [1, 2];
  }

  lemma RenderSnoc(fr: seq<Fragment>, f: Fragment)
    ensures Render(fr + [f]) == Render(fr) + RenderFragment(f)
  {
    assert (fr + [f])[..|fr|] == fr;
  }

  lemma RenderPair(fr: seq<Fragment>, text: string, n: nat)
    ensures Render(fr + [Sql(text), Slot(n)]) == Render(fr) + text + "$" + NatToString(n)
  {
    var a := fr + [Sql(text)];
    assert fr + [Sql(text), Slot(n)] == a + [Slot(n)];
    RenderSnoc(fr, Sql(text));
    RenderSnoc(a, Slot(n));
    var r, d := Render(fr), NatToString(n);
    assert RenderFragment(Slot(n)) == "$" + d;
    assert r + text + ("$" + d) == r + text + "$" + d;
  }

  lemma FilterFragmentsSnoc(fs: seq<(string, string)>, x: (string, string))
    ensures FilterFragments(fs + [x]) == FilterFragments(fs) + Clause(x.0, |fs| + 1)
  {
    assert (fs + [x])[..|fs|] == fs;
  }

  lemma FilterParamsSnoc(fs: seq<(string, string)>, x: (string, string))
    ensures FilterParams(fs + [x]) == FilterParams(fs) + [Pattern("%" + x.1 + "%")]
  {
  }

  lemma TailStep(fr: seq<Fragment>, k: nat)
    ensures Render(fr + ListTail(k))
            == Render(fr) + OrderAndLimit + "$" + NatToString(k) + OffsetText + "$" + NatToString(k + 1)
  {
    RenderPair(fr, OrderAndLimit, k);
    RenderPair(fr + [Sql(OrderAndLimit), Slot(k)], OffsetText, k + 1);
    assert fr + [Sql(OrderAndLimit), Slot(k)] + [Sql(OffsetText), Slot(k + 1)] == fr + ListTail(k);
  }

  lemma FiltersBuilt(mahkeme: Option<string>, baslik: Option<string>, fs: seq<(string, string)>)
    requires fs == (if Present(mahkeme) then [(MahkemeClause, mahkeme.value)] else [])
                   + (if Present(baslik) then [(BaslikClause, baslik.value)] else [])
    ensures fs == Filters(mahkeme, baslik)
  {
  }

  lemma ListFinish(mahkeme: Option<string>, baslik: Option<string>, query: string, params: seq<Param>, k: nat)
    requires BuiltUpTo(query, params, k, Filters(mahkeme, baslik))
    ensures query + OrderAndLimit + "$" + NatToString(k) + OffsetText + "$" + NatToString(k + 1)
            == Render(ListFragments(mahkeme, baslik))
    ensures params == FilterParams(Filters(mahkeme, baslik))
  {
    var fs := Filters(mahkeme, baslik);
    TailStep([Sql(ListBase)] + FilterFragments(fs), k);
    assert ListFragments(mahkeme, baslik) == [Sql(ListBase)] + FilterFragments(fs) + ListTail(k);
  }

  /** The listing query so far, after the filters fs. */
  ghost predicate BuiltUpTo(query: string, params: seq<Param>, paramIndex: nat, fs: seq<(string, string)>) {
    query == Render([Sql(ListBase)] + FilterFragments(fs)) && params == FilterParams(fs) && paramIndex == |fs| + 1
  }

  lemma BuiltEmpty()
    ensures BuiltUpTo(ListBase, [], 1, [])
  {
    RenderSnoc([], Sql(ListBase));
    assert [] + [Sql(ListBase)] == [Sql(ListBase)] + FilterFragments([]);
  }

  /** One `if (filter)` block of the builder: clause, parameter, index. */
  method AddFilter(query: string, params: seq<Param>, paramIndex: nat, clause: string, value: string,
                   ghost fs: seq<(string, string)>)
    returns (query': string, params': seq<Param>, paramIndex': nat)
    requires BuiltUpTo(query, params, paramIndex, fs)
    ensures BuiltUpTo(query', params', paramIndex', fs + [(clause, value)])
  {
    var base := [Sql(ListBase)] + FilterFragments(fs);
    FilterFragmentsSnoc(fs, (clause, value));
    FilterParamsSnoc(fs, (clause, value));
    assert base + [Sql(clause), Slot(paramIndex)] == [Sql(ListBase)] + FilterFragments(fs + [(clause, value)]);
    RenderPair(base, clause, paramIndex);
    query' := query + clause + "$" + NatToString(paramIndex);
    params' := params + [Pattern("%" + value + "%")];
    paramIndex' := paramIndex + 1;
  }

  /** The filter part of the `/kararlar` builder: one clause and one parameter per filter given. */
  method AddFilters(mahkeme: Option<string>, baslik: Option<string>)
    returns (query: string, params: seq<Param>, paramIndex: nat)
    ensures BuiltUpTo(query, params, paramIndex, Filters(mahkeme, baslik))
  {
    query := ListBase;
    params := [];
    paramIndex := 1;
    ghost var fs: seq<(string, string)> := [];
    BuiltEmpty();
    if Present(mahkeme) {
      query, params, paramIndex := AddFilter(query, params, paramIndex, MahkemeClause, mahkeme.value, fs);
      fs := fs + [(MahkemeClause, mahkeme.value)];
    }
    if Present(baslik) {
      query, params, paramIndex := AddFilter(query, params, paramIndex, BaslikClause, baslik.value, fs);
      fs := fs + [(BaslikClause, baslik.value)];
    }
    FiltersBuilt(mahkeme, baslik, fs);
  }

  /** The `/kararlar` builder: text and parameters grow together, with a running placeholder index. */
  method ListQuery(mahkeme: Option<string>, baslik: Option<string>, limit: Option<string>, offset: Option<string>)
    returns (query: string, params: seq<Param>)
    ensures query == Render(ListFragments(mahkeme, baslik))
    ensures params == ListParams(mahkeme, baslik, limit, offset)
  {
    var paramIndex;
    query, params, paramIndex := AddFilters(mahkeme, baslik);
    ListFinish(mahkeme, baslik, query, params, paramIndex);
    query := query + OrderAndLimit + "$" + NatToString(paramIndex) + OffsetText + "$" + NatToString(paramIndex + 1);
    params := params + [Number(NumberOr(limit, 50)), Number(NumberOr(offset, 0))];
  }

  // ---------------------------------------------------------------------------
  // `/search`

  datatype SearchOutcome<T> = MissingTerm | SearchFailed | Found(results: seq<T>, query: string, total: nat)

  /** `[q, '%q%', limit]`: the limit goes to the database as given, 10 when absent. */
  function SearchParams(q: string, limit: Option<string>): seq<Param> {
    [Raw(q), Pattern("%" + q + "%"), if limit.None? then Number(Some(10)) else Raw(limit.value)]
  }

  /** `GET /search`: a missing or empty `q` is refused before the query runs. */
  function Search<T>(q: Option<string>, limit: Option<string>, run: seq<Param> -> Retrieval.Attempt<seq<T>>): (r: SearchOutcome<T>)
    ensures r.MissingTerm? <==> !Present(q)
    ensures r.Found? ==> run(SearchParams(q.value, limit)) == Retrieval.Done(r.results)
                         && r.query == q.value && r.total == |r.results|
    ensures r.SearchFailed? ==> run(SearchParams(q.value, limit)).Failed?
  {
    if !Present(q) then MissingTerm
    else match run(SearchParams(q.value, limit))
      case Failed(_) => SearchFailed
      case Done(rows) => Found(rows, q.value, |rows|)
  }

  // ---------------------------------------------------------------------------
  // `/sync`

  datatype Counts = Counts(added: nat, updated: nat, errors: nat)

  datatype ConversationRow = ConversationRow(id: nat, userId: string, title: string, createdAt: string,
                                             updatedAt: string, isActive: bool)
  datatype MessageRow = MessageRow(id: nat, conversationId: nat, role: string, content: string, createdAt: string)
  datatype RulingRow = RulingRow(id: nat, kararTarihi: Option<string>, basvuruNo: Option<string>,
                                 rgTarihSayi: Option<string>, mahkeme: Option<string>, uyeler: Option<string>,
                                 raportor: Option<string>, basvurucu: Option<string>, kararOzeti: Option<string>,
                                 degerlendirme: Option<string>, giderim: Option<string>, hukum: Option<string>,
                                 baslik: Option<string>, url: Option<string>)
  datatype ChunkRow = ChunkRow(kararId: nat, chunkIndex: nat, section: Option<string>, chunkText: Option<string>)

  /**
   * The body of `/sync`; an absent list is an empty one.  An entry of
   * `yeniTablolar` is None when it is `null` or `undefined`, on which reading
   * `table_name` throws, and otherwise the name it carries.
   */
  datatype SourceData = SourceData(conversations: seq<ConversationRow>, messages: seq<MessageRow>,
                                   kararlar: seq<RulingRow>, kararChunk: seq<ChunkRow>,
                                   yeniTablolar: seq<Option<string>>)

  datatype SyncResults = SyncResults(conversations: Counts, messages: Counts, kararlar: Counts,
                                     kararChunk: Counts, yeniTablolar: Counts)

  /**
   * What `/sync` answers.  SyncFailed is the 500 of the outer `catch`: it comes
   * after the four tables were written, which it does not undo.
   */
  datatype SyncOutcome = MissingSource | Synced(results: SyncResults) | SyncFailed

  /** A table after a merge, with the counters of that merge. */
  datatype Merge<K, V> = Merge(table: map<K, V>, counts: Counts)

  /** The keys of the items whose statements do not fail. */
  function NewKeys<K, V(==)>(items: seq<V>, key: V -> K, fails: V -> bool): set<K> {
    set x | x in items && !fails(x) :: key(x)
  }

  /** The positions of the items whose statements fail. */
  function Failing<V>(items: seq<V>, fails: V -> bool): set<nat> {
    set i: nat | i < |items| && fails(items[i])
  }

  /**
   * An insert-only merge (messages, rulings, chunks): an item whose statement
   * fails bumps `errors`; an item whose key is stored is skipped and counted
   * nowhere; any other item is inserted and bumps `added`.
   */
  function InsertNew<K, V>(table: map<K, V>, items: seq<V>, key: V -> K, fails: V -> bool): (r: Merge<K, V>)
    ensures r.counts.updated == 0 && r.counts.added + r.counts.errors <= |items|
    decreases |items|
  {
    if items == [] then Merge(table, Counts(0, 0, 0))
    else
      var prev := InsertNew(table, items[..|items| - 1], key, fails);
      var x := items[|items| - 1];
      if fails(x) then prev.(counts := prev.counts.(errors := prev.counts.errors + 1))
      else if key(x) in prev.table then prev
      else Merge(prev.table[key(x) := x], prev.counts.(added := prev.counts.added + 1))
  }

  lemma NewKeysSnoc<K, V>(items: seq<V>, x: V, key: V -> K, fails: V -> bool)
    ensures NewKeys(items + [x], key, fails) == NewKeys(items, key, fails) + (if fails(x) then {} else {key(x)})
  {
    forall y | y in items + [x]
      ensures y in items || y == x
    {
    }
  }

  lemma FailingSnoc<V>(items: seq<V>, x: V, fails: V -> bool)
    ensures Failing(items + [x], fails) == Failing(items, fails) + (if fails(x) then {|items|} else {})
  {
    assert forall i: nat :: i < |items| ==> (items + [x])[i] == items[i];
  }

  /** Insert-only: every stored row is left as it was. */
  lemma {:induction false} InsertNewKeeps<K, V>(table: map<K, V>, items: seq<V>, key: V -> K, fails: V -> bool)
    ensures var r := InsertNew(table, items, key, fails);
            forall k :: k in table ==> k in r.table && r.table[k] == table[k]
    decreases |items|
  {
    if items != [] {
      InsertNewKeeps(table, items[..|items| - 1], key, fails);
    }
  }

  /** The table gains exactly the keys of the items that did not fail. */
  lemma {:induction false} InsertNewKeys<K, V>(table: map<K, V>, items: seq<V>, key: V -> K, fails: V -> bool)
    ensures InsertNew(table, items, key, fails).table.Keys == table.Keys + NewKeys(items, key, fails)
    decreases |items|
  {
    if items != [] {
      var init, x := items[..|items| - 1], items[|items| - 1];
      assert items == init + [x];
      InsertNewKeys(table, init, key, fails);
      NewKeysSnoc(init, x, key, fails);
    }
  }

  /** `added` is the number of rows the table gained. */
  lemma {:induction false} InsertNewAdded<K, V>(table: map<K, V>, items: seq<V>, key: V -> K, fails: V -> bool)
    ensures var r := InsertNew(table, items, key, fails); |r.table.Keys| == |table.Keys| + r.counts.added
    decreases |items|
  {
    if items != [] {
      var init, x := items[..|items| - 1], items[|items| - 1];
      InsertNewAdded(table, init, key, fails);
      var prev := InsertNew(table, init, key, fails);
      if !fails(x) && key(x) !in prev.table {
        assert prev.table[key(x) := x].Keys == prev.table.Keys + {key(x)};
      }
    }
  }

  /** `errors` is the number of failing items. */
  lemma {:induction false} InsertNewErrors<K, V>(table: map<K, V>, items: seq<V>, key: V -> K, fails: V -> bool)
    ensures InsertNew(table, items, key, fails).counts.errors == |Failing(items, fails)|
    decreases |items|
  {
    if items != [] {
      var init, x := items[..|items| - 1], items[|items| - 1];
      assert items == init + [x];
      InsertNewErrors(table, init, key, fails);
      FailingSnoc(init, x, fails);
      assert |init| !in Failing(init, fails);
    }
  }

  /**
   * First writer wins: a row the merge added is the first non-failing item
   * with that key.
   */
  lemma {:induction false} InsertNewFirstWins<K, V>(table: map<K, V>, items: seq<V>, key: V -> K, fails: V -> bool, k: K)
    requires k in InsertNew(table, items, key, fails).table && k !in table
    ensures exists i :: 0 <= i < |items| && InsertNew(table, items, key, fails).table[k] == items[i]
                        && key(items[i]) == k && !fails(items[i])
                        && forall j :: 0 <= j < i ==> key(items[j]) != k || fails(items[j])
    decreases |items|
  {
    var init, x := items[..|items| - 1], items[|items| - 1];
    var prev := InsertNew(table, init, key, fails);
    if k in prev.table {
      InsertNewFirstWins(table, init, key, fails, k);
      var i :| 0 <= i < |init| && prev.table[k] == init[i] && key(init[i]) == k && !fails(init[i])
               && forall j :: 0 <= j < i ==> key(init[j]) != k || fails(init[j]);
      assert items[i] == init[i];
      assert forall j :: 0 <= j < i ==> items[j] == init[j];
    } else {
      InsertNewKeys(table, init, key, fails);
      forall j | 0 <= j < |init|
        ensures key(items[j]) != k || fails(items[j])
      {
        assert items[j] == init[j] && init[j] in init;
      }
    }
  }

  /** A stored key is counted nowhere: the item leaves table and counters as they were. */
  lemma ExistingKeyIgnored<K, V>(table: map<K, V>, items: seq<V>, x: V, key: V -> K, fails: V -> bool)
    requires !fails(x) && key(x) in InsertNew(table, items, key, fails).table
    ensures InsertNew(table, items + [x], key, fails) == InsertNew(table, items, key, fails)
  {
    assert (items + [x])[..|items|] == items;
  }

  /** A failing item bumps `errors` and nothing else, and the merge goes on with the next item. */
  lemma FailureOnlyCounts<K, V>(table: map<K, V>, items: seq<V>, x: V, key: V -> K, fails: V -> bool)
    requires fails(x)
    ensures var prev := InsertNew(table, items, key, fails);
            InsertNew(table, items + [x], key, fails) == prev.(counts := prev.counts.(errors := prev.counts.errors + 1))
  {
    assert (items + [x])[..|items|] == items;
  }

  /** The fields `UPDATE conversations SET title, updated_at, is_active` writes; user and creation time stay. */
  function Refreshed(stored: ConversationRow, x: ConversationRow): ConversationRow {
    stored.(title := x.title, updatedAt := x.updatedAt, isActive := x.isActive)
  }

  /** The conversation merge: insert a new id, update a stored one, count a failure. */
  function Upsert(table: map<nat, ConversationRow>, items: seq<ConversationRow>, fails: ConversationRow -> bool)
    : (r: Merge<nat, ConversationRow>)
    ensures r.counts.added + r.counts.updated + r.counts.errors == |items|
    decreases |items|
  {
    if items == [] then Merge(table, Counts(0, 0, 0))
    else
      var prev := Upsert(table, items[..|items| - 1], fails);
      var x := items[|items| - 1];
      if fails(x) then prev.(counts := prev.counts.(errors := prev.counts.errors + 1))
      else if x.id in prev.table then
        Merge(prev.table[x.id := Refreshed(prev.table[x.id], x)], prev.counts.(updated := prev.counts.updated + 1))
      else Merge(prev.table[x.id := x], prev.counts.(added := prev.counts.added + 1))
  }

  /** The upsert stores every conversation under its own id. */
  lemma {:induction false} UpsertIds(table: map<nat, ConversationRow>, items: seq<ConversationRow>,
                                     fails: ConversationRow -> bool)
    requires KeyedBy(table, ConversationKey)
    ensures KeyedBy(Upsert(table, items, fails).table, ConversationKey)
    decreases |items|
  {
    if items != [] {
      var init, x := items[..|items| - 1], items[|items| - 1];
      UpsertIds(table, init, fails);
      var prev := Upsert(table, init, fails);
      var r := Upsert(table, items, fails);
      forall k | k in r.table
        ensures ConversationKey(r.table[k]) == k
      {
        if !fails(x) && k == x.id {
          if x.id in prev.table {
            assert r.table[k] == Refreshed(prev.table[x.id], x);
          } else {
            assert r.table[k] == x;
          }
        } else {
          assert k in prev.table && r.table[k] == prev.table[k];
        }
      }
    }
  }

  /** A stored conversation keeps its owner and creation time: the update writes neither. */
  lemma {:induction false} UpsertKeepsOwner(table: map<nat, ConversationRow>, items: seq<ConversationRow>,
                                            fails: ConversationRow -> bool)
    ensures var r := Upsert(table, items, fails);
            forall k :: k in table ==> k in r.table && r.table[k].userId == table[k].userId
                                       && r.table[k].createdAt == table[k].createdAt
    decreases |items|
  {
    if items != [] {
      UpsertKeepsOwner(table, items[..|items| - 1], fails);
    }
  }

  /** The upsert gains exactly the ids of the items that did not fail. */
  lemma {:induction false} UpsertKeys(table: map<nat, ConversationRow>, items: seq<ConversationRow>,
                                      fails: ConversationRow -> bool)
    ensures Upsert(table, items, fails).table.Keys == table.Keys + NewKeys(items, (c: ConversationRow) => c.id, fails)
    decreases |items|
  {
    if items != [] {
      var init, x := items[..|items| - 1], items[|items| - 1];
      assert items == init + [x];
      UpsertKeys(table, init, fails);
      NewKeysSnoc(init, x, (c: ConversationRow) => c.id, fails);
    }
  }

  /** `added` is the number of conversations the table gained. */
  lemma {:induction false} UpsertAdded(table: map<nat, ConversationRow>, items: seq<ConversationRow>,
                                       fails: ConversationRow -> bool)
    ensures var r := Upsert(table, items, fails); |r.table.Keys| == |table.Keys| + r.counts.added
    decreases |items|
  {
    if items != [] {
      var init, x := items[..|items| - 1], items[|items| - 1];
      UpsertAdded(table, init, fails);
      var prev := Upsert(table, init, fails);
      if !fails(x) {
        if x.id in prev.table {
          assert prev.table[x.id := Refreshed(prev.table[x.id], x)].Keys == prev.table.Keys;
        } else {
          assert prev.table[x.id := x].Keys == prev.table.Keys + {x.id};
        }
      }
    }
  }

  /** Last writer wins: a conversation carries the title, update time and active flag of the last item for it that did not fail. */
  lemma {:induction false} UpsertLastWins(table: map<nat, ConversationRow>, items: seq<ConversationRow>,
                                          fails: ConversationRow -> bool, i: nat)
    requires i < |items| && !fails(items[i])
    requires forall j :: i < j < |items| ==> items[j].id != items[i].id || fails(items[j])
    ensures var r := Upsert(table, items, fails);
            items[i].id in r.table && r.table[items[i].id].title == items[i].title
            && r.table[items[i].id].updatedAt == items[i].updatedAt && r.table[items[i].id].isActive == items[i].isActive
    decreases |items|
  {
    var init := items[..|items| - 1];
    if i < |items| - 1 {
      assert init[i] == items[i];
      assert forall j :: i < j < |init| ==> init[j] == items[j];
      UpsertLastWins(table, init, fails, i);
    }
  }

  /** The loop of an insert-only table. */
  method InsertEach<K, V>(table: map<K, V>, items: seq<V>, key: V -> K, fails: V -> bool)
    returns (t: map<K, V>, counts: Counts)
    ensures Merge(t, counts) == InsertNew(table, items, key, fails)
  {
    t, counts := table, Counts(0, 0, 0);
    var i := 0;
    while i < |items|
      invariant 0 <= i <= |items|
      invariant Merge(t, counts) == InsertNew(table, items[..i], key, fails)
    {
      assert items[..i + 1][..i] == items[..i];
      var x := items[i];
      if fails(x) {
        counts := counts.(errors := counts.errors + 1);
      } else if key(x) !in t {
        t := t[key(x) := x];
        counts := counts.(added := counts.added + 1);
      }
      i := i + 1;
    }
    assert items[..i] == items;
  }

  /** Every row of `t` is stored under its own key. */
  ghost predicate KeyedBy<K, V>(t: map<K, V>, key: V -> K)
  {
    forall k :: k in t ==> key(t[k]) == k
  }

  function ConversationKey(c: ConversationRow): nat { c.id }
  function MessageKey(m: MessageRow): nat { m.id }
  function RulingKey(k: RulingRow): nat { k.id }
  function ChunkKey(c: ChunkRow): (nat, nat) { (c.kararId, c.chunkIndex) }

  /** The tables `/sync` writes, keyed by primary key; chunks by (karar_id, chunk_index). */
  class SyncTarget {
    var conversations: map<nat, ConversationRow>
    var messages: map<nat, MessageRow>
    var kararlar: map<nat, RulingRow>
    var chunks: map<(nat, nat), ChunkRow>

    /** Every row is stored under its own key. */
    ghost predicate Valid()
      reads this
    {
      KeyedBy(conversations, ConversationKey) && KeyedBy(messages, MessageKey)
      && KeyedBy(kararlar, RulingKey) && KeyedBy(chunks, ChunkKey)
    }

    constructor ()
      ensures Valid() && conversations == map[] && messages == map[] && kararlar == map[] && chunks == map[]
    {
      conversations, messages, kararlar, chunks := map[], map[], map[], map[];
    }

    /** The conversation loop. */
    method SyncConversations(items: seq<ConversationRow>, fails: ConversationRow -> bool) returns (counts: Counts)
      requires Valid()
      modifies this
      ensures Valid()
      ensures Merge(conversations, counts) == Upsert(old(conversations), items, fails)
      ensures messages == old(messages) && kararlar == old(kararlar) && chunks == old(chunks)
    {
      var t := conversations;
      counts := Counts(0, 0, 0);
      var i := 0;
      while i < |items|
        invariant 0 <= i <= |items|
        invariant Merge(t, counts) == Upsert(conversations, items[..i], fails)
      {
        assert items[..i + 1][..i] == items[..i];
        var conv := items[i];
        if fails(conv) {
          counts := counts.(errors := counts.errors + 1);
        } else if conv.id !in t {
          t := t[conv.id := conv];
          counts := counts.(added := counts.added + 1);
        } else {
          t := t[conv.id := Refreshed(t[conv.id], conv)];
          counts := counts.(updated := counts.updated + 1);
        }
        i := i + 1;
      }
      assert items[..i] == items;
      UpsertIds(conversations, items, fails);
      conversations := t;
    }

    /** `POST /sync`; `fails` says which items' statements throw, table by table. */
    method Sync(source: Option<SourceData>, convFails: ConversationRow -> bool, msgFails: MessageRow -> bool,
                rulingFails: RulingRow -> bool, chunkFails: ChunkRow -> bool)
      returns (r: SyncOutcome)
      requires Valid()
      modifies this
      ensures Valid()
      ensures source.None? <==> r.MissingSource?
      ensures source.None? ==> conversations == old(conversations) && messages == old(messages)
                               && kararlar == old(kararlar) && chunks == old(chunks)
      ensures r.SyncFailed? <==> source.Some? && None in source.value.yeniTablolar
      ensures r.SyncFailed? ==>
                var s := source.value;
                conversations == Upsert(old(conversations), s.conversations, convFails).table
                && messages == InsertNew(old(messages), s.messages, MessageKey, msgFails).table
                && kararlar == InsertNew(old(kararlar), s.kararlar, RulingKey, rulingFails).table
                && chunks == InsertNew(old(chunks), s.kararChunk, ChunkKey, chunkFails).table
      ensures r.Synced? ==>
                var s := source.value;
                Merge(conversations, r.results.conversations) == Upsert(old(conversations), s.conversations, convFails)
                && Merge(messages, r.results.messages) == InsertNew(old(messages), s.messages, MessageKey, msgFails)
                && Merge(kararlar, r.results.kararlar) == InsertNew(old(kararlar), s.kararlar, RulingKey, rulingFails)
                && Merge(chunks, r.results.kararChunk) == InsertNew(old(chunks), s.kararChunk, ChunkKey, chunkFails)
                && r.results.yeniTablolar == Counts(|s.yeniTablolar|, 0, 0)
    {
      if source.None? {
        return MissingSource;
      }
      var s := source.value;
      var conversationCounts := SyncConversations(s.conversations, convFails);
      var messageCounts, rulingCounts, chunkCounts;
      messages, messageCounts := InsertEach(messages, s.messages, MessageKey, msgFails);
      kararlar, rulingCounts := InsertEach(kararlar, s.kararlar, RulingKey, rulingFails);
      chunks, chunkCounts := InsertEach(chunks, s.kararChunk, ChunkKey, chunkFails);
      if None in s.yeniTablolar {
        // `yeniTablolar.map(t => t.table_name)` throws outside the per-item `try`.
        r := SyncFailed;
      } else {
        r := Synced(SyncResults(conversationCounts, messageCounts, rulingCounts, chunkCounts,
                                Counts(|s.yeniTablolar|, 0, 0)));
      }
      assert Valid() by {
        InsertKeepsKeys(old(messages), s.messages, MessageKey, msgFails);
        InsertKeepsKeys(old(kararlar), s.kararlar, RulingKey, rulingFails);
        InsertKeepsKeys(old(chunks), s.kararChunk, ChunkKey, chunkFails);
      }
    }
  }

  /** An insert-only merge stores every row under its own key. */
  lemma {:induction false} InsertKeepsKeys<K, V>(table: map<K, V>, items: seq<V>, key: V -> K, fails: V -> bool)
    requires KeyedBy(table, key)
    ensures KeyedBy(InsertNew(table, items, key, fails).table, key)
    decreases |items|
  {
    if items != [] {
      var init, x := items[..|items| - 1], items[|items| - 1];
      InsertKeepsKeys(table, init, key, fails);
      var prev := InsertNew(table, init, key, fails);
      var r := InsertNew(table, items, key, fails);
      forall k | k in r.table
        ensures key(r.table[k]) == k
      {
        if !fails(x) && key(x) !in prev.table && k == key(x) {
          assert r.table[k] == x;
        } else {
          assert k in prev.table && r.table[k] == prev.table[k];
        }
      }
    }
  }
}
