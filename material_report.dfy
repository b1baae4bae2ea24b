/**
 * The material query page: every stored Material movement is expanded into one row per item of its `Itens`
 * list, the rows of one subcategory are kept, and the page shows their totals, their mean value, the history
 * ordered by date and the sums per project.
 */
module MaterialReport {
  import opened Base
  import Aggregates
  import Ledger

  /** A key of a stored item object: absent, present with a null value, or present with a value. */
  datatype Field<T> = Absent | Null | Present(value: T)

  /** `item.get(key, default)`: the default for an absent key, a missing value (None / NaN) for a null one. */
  function Get<T>(f: Field<T>, default: T): Option<T>
  {
    match f
    case Absent => Some(default)
    case Null => None
    case Present(v) => Some(v)
  }

  /** One object of an entry's `Itens` list, as stored. */
  datatype StoredItem = StoredItem(item: Field<string>, subcategoria: Field<string>,
                                   quantidade: Field<real>, valor: Field<real>)

  /** The `Itens` column of a stored row: null, some non-list value, or a list of item objects. */
  datatype ItensColumn = NoItens | NotAList | ItemList(items: seq<StoredItem>)

  /** A stored Material movement, with the columns the page reads. */
  datatype StoredEntry = StoredEntry(obraId: int, data: Date, descricao: string, valor: real, itens: ItensColumn)

  /** A row of the expanded table; a missing value (null or NaN) is None. */
  datatype ReportRow = ReportRow(obraId: int, data: Date, descricao: string, item: Option<string>,
                                 subcategoria: Option<string>, quantidade: Option<real>, valor: Option<real>)

  /** Whether an entry is expanded: its `Itens` is a non-empty list. */
  predicate Itemised(e: StoredEntry)
  {
    e.itens.ItemList? && |e.itens.items| > 0
  }

  /** The copy of an entry's row that describes one of its items, with the defaults "", "", 0 and 0. */
  function ItemRow(e: StoredEntry, it: StoredItem): ReportRow
  {
    ReportRow(e.obraId, e.data, e.descricao, Get(it.item, ""), Get(it.subcategoria, ""),
              Get(it.quantidade, 0.0), Get(it.valor, 0.0))
  }

  /** An entry that is not expanded keeps its own row: its value, and no item columns. */
  function PlainRow(e: StoredEntry): ReportRow
  {
    ReportRow(e.obraId, e.data, e.descricao, None, None, None, Some(e.valor))
  }

  function ItemRows(e: StoredEntry, items: seq<StoredItem>): seq<ReportRow>
  {
    if items == [] then [] else ItemRows(e, items[..|items| - 1]) + [ItemRow(e, items[|items| - 1])]
  }

  function ExpandOne(e: StoredEntry): seq<ReportRow>
  {
    if Itemised(e) then ItemRows(e, e.itens.items) else [PlainRow(e)]
  }

  /** `rows_expanded`: the rows of every entry, entry after entry. */
  function ExpandAll(es: seq<StoredEntry>): seq<ReportRow>
  {
    if es == [] then [] else ExpandAll(es[..|es| - 1]) + ExpandOne(es[|es| - 1])
  }

  /** How many rows an entry contributes: max(1, len(Itens)) for a list, 1 otherwise. */
  function Weight(e: StoredEntry): nat
  {
    if e.itens.ItemList? && |e.itens.items| > 1 then |e.itens.items| else 1
  }

  function TotalWeight(es: seq<StoredEntry>): nat
  {
    if es == [] then 0 else TotalWeight(es[..|es| - 1]) + Weight(es[|es| - 1])
  }

  /** The expansion loop: for each entry, one copy per item, or the entry itself. */
  method Expand(es: seq<StoredEntry>) returns (rows: seq<ReportRow>)
    ensures rows == ExpandAll(es)
  {
    rows := [];
    var i := 0;
    while i < |es|
      invariant 0 <= i <= |es|
      invariant rows == ExpandAll(es[..i])
    {
      assert es[..i + 1][..i] == es[..i];
      var e := es[i];
      if e.itens.ItemList? && |e.itens.items| > 0 {
        var items := e.itens.items;
        ghost var before := rows;
        var j := 0;
        while j < |items|
          invariant 0 <= j <= |items|
          invariant rows == before + ItemRows(e, items[..j])
        {
          assert items[..j + 1][..j] == items[..j];
          rows := rows + [ItemRow(e, items[j])];
          j := j + 1;
        }
        assert items[..|items|] == items;
      } else {
        rows := rows + [PlainRow(e)];
      }
      i := i + 1;
    }
    assert es[..|es|] == es;
  }

  lemma {:induction false} ItemRowsSize(e: StoredEntry, items: seq<StoredItem>)
    ensures |ItemRows(e, items)| == |items|
    ensures forall k | 0 <= k < |items| :: ItemRows(e, items)[k] == ItemRow(e, items[k])
  {
    if items != [] {
      ItemRowsSize(e, items[..|items| - 1]);
    }
  }

  /** The expanded table has Σ max(1, len(Itens)) rows. */
  lemma {:induction false} ExpandCount(es: seq<StoredEntry>)
    ensures |ExpandAll(es)| == TotalWeight(es)
  {
    if es != [] {
      ExpandCount(es[..|es| - 1]);
      var e := es[|es| - 1];
      if Itemised(e) {
        ItemRowsSize(e, e.itens.items);
      }
    }
  }

  /**
   * An itemised entry yields, in item order, one row per item carrying the entry's project, date and
   * description and the item's own fields; any other entry yields exactly its own row.
   */
  lemma ExpandOneRows(e: StoredEntry)
    ensures Itemised(e) ==>
              && |ExpandOne(e)| == |e.itens.items|
              && forall k | 0 <= k < |e.itens.items| ::
                   var r := ExpandOne(e)[k];
                   var it := e.itens.items[k];
                   && r.obraId == e.obraId && r.data == e.data && r.descricao == e.descricao
                   && r.item == Get(it.item, "") && r.subcategoria == Get(it.subcategoria, "")
                   && r.quantidade == Get(it.quantidade, 0.0) && r.valor == Get(it.valor, 0.0)
    ensures !Itemised(e) ==> ExpandOne(e) == [PlainRow(e)]
  {
    if Itemised(e) {
      ItemRowsSize(e, e.itens.items);
    }
  }

  /** `df[df["Subcategoria"] == sel]`: the rows of the chosen subcategory, in their order. */
  function OfSubcategory(rows: seq<ReportRow>, sel: string): seq<ReportRow>
  {
    if rows == [] then []
    else
      var last := rows[|rows| - 1];
      OfSubcategory(rows[..|rows| - 1], sel) + (if last.subcategoria == Some(sel) then [last] else [])
  }

  /** A row is kept exactly when its subcategory is the chosen one; a row without items never is. */
  lemma {:induction false} OfSubcategoryMembers(rows: seq<ReportRow>, sel: string, r: ReportRow)
    ensures r in OfSubcategory(rows, sel) <==> r in rows && r.subcategoria == Some(sel)
    ensures |OfSubcategory(rows, sel)| <= |rows|
  {
    if rows != [] {
      var init := rows[..|rows| - 1];
      OfSubcategoryMembers(init, sel, r);
      if r in rows && r != rows[|rows| - 1] {
        var k :| 0 <= k < |rows| && rows[k] == r;
        assert init[k] == r;
      }
    }
  }

  /** Only item rows can be of a subcategory: the row an entry without items keeps is never selected. */
  lemma PlainRowNeverSelected(e: StoredEntry, sel: string)
    ensures OfSubcategory([PlainRow(e)], sel) == []
  {
    assert [PlainRow(e)][..0] == [];
  }

  /** A missing number counts as 0 in a sum, as pandas skips it. */
  function QuantityOf(r: ReportRow): real
  {
    if r.quantidade.Some? then r.quantidade.value else 0.0
  }

  function ValueOf(r: ReportRow): real
  {
    if r.valor.Some? then r.valor.value else 0.0
  }

  /** "Quantidade Total Comprada". */
  function TotalQuantity(rows: seq<ReportRow>): real
  {
    Aggregates.SumOf(rows, QuantityOf)
  }

  /** "Gasto Total Acumulado". */
  function TotalValue(rows: seq<ReportRow>): real
  {
    Aggregates.SumOf(rows, ValueOf)
  }

  /** How many rows have a value; pandas' mean divides by this count. */
  function ValuedCount(rows: seq<ReportRow>): nat
  {
    if rows == [] then 0 else ValuedCount(rows[..|rows| - 1]) + (if rows[|rows| - 1].valor.Some? then 1 else 0)
  }

  /** "Preço Médio Unitário": `Series.mean()`, which has no value when no row has one. */
  function MeanValue(rows: seq<ReportRow>): Option<real>
  {
    if ValuedCount(rows) == 0 then None else Some(TotalValue(rows) / ValuedCount(rows) as real)
  }

  lemma {:induction false} AllValued(rows: seq<ReportRow>)
    requires forall k | 0 <= k < |rows| :: rows[k].valor.Some?
    ensures ValuedCount(rows) == |rows|
  {
    if rows != [] {
      AllValued(rows[..|rows| - 1]);
    }
  }

  /**
   * When every row has a value, the mean is the value total divided by the row count, and it lies between the
   * smallest and the largest value.
   */
  lemma MeanBounds(rows: seq<ReportRow>, lo: real, hi: real)
    requires rows != []
    requires forall k | 0 <= k < |rows| :: rows[k].valor.Some? && lo <= rows[k].valor.value <= hi
    ensures MeanValue(rows) == Some(TotalValue(rows) / |rows| as real)
    ensures lo <= MeanValue(rows).value <= hi
  {
    AllValued(rows);
    Aggregates.SumOfBounds(rows, ValueOf, lo, hi);
    var n := |rows| as real;
    var t := TotalValue(rows);
    assert n * lo <= t <= n * hi;
    assert lo <= t / n by {
      assert (t / n) * n == t;
    }
    assert t / n <= hi by {
      assert (t / n) * n == t;
    }
  }

  function DataKey(r: ReportRow): real
  {
    r.data as real
  }

  /** The history tab: the selected rows ordered by date, latest first. */
  function History(rows: seq<ReportRow>): seq<ReportRow>
  {
    Aggregates.SortDescBy(rows, DataKey)
  }

  /** The history holds exactly the selected rows, latest date first. */
  lemma HistoryOrdered(rows: seq<ReportRow>)
    ensures forall i, j | 0 <= i < j < |History(rows)| :: History(rows)[i].data >= History(rows)[j].data
    ensures multiset(History(rows)) == multiset(rows)
  {
    Aggregates.SortDescByCorrect(rows, DataKey);
  }

  /** A labelled row for the per-project grouping. */
  datatype Labelled = Labelled(obra: string, row: ReportRow)

  /**
   * `df["obra_id"].map(mapa_obras)` then `groupby("Obra")`: each row labelled with its project's name from
   * the id-to-name map, and rows whose id has no name dropped.
   */
  function WithNames(rows: seq<ReportRow>, names: map<int, string>): seq<Labelled>
  {
    if rows == [] then []
    else
      var last := rows[|rows| - 1];
      WithNames(rows[..|rows| - 1], names) + (if last.obraId in names then [Labelled(names[last.obraId], last)] else [])
  }

  function ObraOf(l: Labelled): string
  {
    l.obra
  }

  function LabelledQuantity(l: Labelled): real
  {
    QuantityOf(l.row)
  }

  function LabelledValue(l: Labelled): real
  {
    ValueOf(l.row)
  }

  /** The comparison tab: per project name, the summed quantity and the summed value. */
  function QuantityByObra(rows: seq<ReportRow>, names: map<int, string>): map<string, real>
  {
    Aggregates.SumBy(WithNames(rows, names), ObraOf, LabelledQuantity)
  }

  function ValueByObra(rows: seq<ReportRow>, names: map<int, string>): map<string, real>
  {
    Aggregates.SumBy(WithNames(rows, names), ObraOf, LabelledValue)
  }

  /** Sums of the rows of project `obra`, walked one row at a time: the reference for the grouping. */
  function QuantityOfObra(rows: seq<ReportRow>, names: map<int, string>, obra: string): real
  {
    if rows == [] then 0.0
    else
      var last := rows[|rows| - 1];
      QuantityOfObra(rows[..|rows| - 1], names, obra)
      + (if last.obraId in names && names[last.obraId] == obra then QuantityOf(last) else 0.0)
  }

  function ValueOfObra(rows: seq<ReportRow>, names: map<int, string>, obra: string): real
  {
    if rows == [] then 0.0
    else
      var last := rows[|rows| - 1];
      ValueOfObra(rows[..|rows| - 1], names, obra)
      + (if last.obraId in names && names[last.obraId] == obra then ValueOf(last) else 0.0)
  }

  lemma WithNamesSums(rows: seq<ReportRow>, names: map<int, string>, obra: string)
    ensures Aggregates.SumWhere(WithNames(rows, names), ObraOf, LabelledQuantity, obra) == QuantityOfObra(rows, names, obra)
    ensures Aggregates.SumWhere(WithNames(rows, names), ObraOf, LabelledValue, obra) == ValueOfObra(rows, names, obra)
  {
    WithNamesQuantity(rows, names, obra);
    WithNamesValue(rows, names, obra);
  }

  /** The labelled rows end in the label of the last row exactly when its project has a name. */
  lemma WithNamesLast(rows: seq<ReportRow>, names: map<int, string>)
    requires rows != []
    ensures var last := rows[|rows| - 1];
            WithNames(rows, names)
            == WithNames(rows[..|rows| - 1], names) + (if last.obraId in names then [Labelled(names[last.obraId], last)] else [])
  {
  }

  lemma {:induction false} WithNamesQuantity(rows: seq<ReportRow>, names: map<int, string>, obra: string)
    ensures Aggregates.SumWhere(WithNames(rows, names), ObraOf, LabelledQuantity, obra) == QuantityOfObra(rows, names, obra)
  {
    if rows != [] {
      var init, last := rows[..|rows| - 1], rows[|rows| - 1];
      WithNamesQuantity(init, names, obra);
      WithNamesLast(rows, names);
      var w := WithNames(rows, names);
      if last.obraId in names {
        var l := Labelled(names[last.obraId], last);
        assert w[..|w| - 1] == WithNames(init, names) && w[|w| - 1] == l;
        assert ObraOf(l) == names[last.obraId] && LabelledQuantity(l) == QuantityOf(last);
      } else {
        assert w == WithNames(init, names);
      }
    }
  }

  lemma {:induction false} WithNamesValue(rows: seq<ReportRow>, names: map<int, string>, obra: string)
    ensures Aggregates.SumWhere(WithNames(rows, names), ObraOf, LabelledValue, obra) == ValueOfObra(rows, names, obra)
  {
    if rows != [] {
      var init, last := rows[..|rows| - 1], rows[|rows| - 1];
      WithNamesValue(init, names, obra);
      WithNamesLast(rows, names);
      var w := WithNames(rows, names);
      if last.obraId in names {
        var l := Labelled(names[last.obraId], last);
        assert w[..|w| - 1] == WithNames(init, names) && w[|w| - 1] == l;
        assert ObraOf(l) == names[last.obraId] && LabelledValue(l) == ValueOf(last);
      } else {
        assert w == WithNames(init, names);
      }
    }
  }

  lemma {:induction false} WithNamesHas(rows: seq<ReportRow>, names: map<int, string>, obra: string)
    ensures (exists i :: 0 <= i < |WithNames(rows, names)| && WithNames(rows, names)[i].obra == obra) <==>
              exists k :: 0 <= k < |rows| && rows[k].obraId in names && names[rows[k].obraId] == obra
  {
    if rows != [] {
      var init := rows[..|rows| - 1];
      var last := rows[|rows| - 1];
      WithNamesHas(init, names, obra);
      var w := WithNames(rows, names);
      var wi := WithNames(init, names);
      if last.obraId in names {
        assert w == wi + [Labelled(names[last.obraId], last)];
      } else {
        assert w == wi;
      }
      assert rows[|rows| - 1] == last;
      if exists k :: 0 <= k < |init| && init[k].obraId in names && names[init[k].obraId] == obra {
        var k :| 0 <= k < |init| && init[k].obraId in names && names[init[k].obraId] == obra;
        assert rows[k] == init[k];
        var i :| 0 <= i < |wi| && wi[i].obra == obra;
        assert w[i] == wi[i];
      }
      if last.obraId in names && names[last.obraId] == obra {
        assert w[|w| - 1].obra == obra;
      }
      if exists i :: 0 <= i < |w| && w[i].obra == obra {
        var i :| 0 <= i < |w| && w[i].obra == obra;
        if i < |wi| {
          assert wi[i] == w[i];
          var k :| 0 <= k < |init| && init[k].obraId in names && names[init[k].obraId] == obra;
          assert rows[k] == init[k];
        } else {
          assert last.obraId in names;
          assert w[i] == Labelled(names[last.obraId], last);
          assert rows[|rows| - 1].obraId in names && names[rows[|rows| - 1].obraId] == obra;
        }
      }
    }
  }

  /**
   * A project appears in the comparison exactly when some selected row names it, and its bars are the sums
   * of quantity and of value over exactly those rows.
   */
  lemma ByObraGroups(rows: seq<ReportRow>, names: map<int, string>, obra: string)
    ensures obra in QuantityByObra(rows, names) <==>
              exists k :: 0 <= k < |rows| && rows[k].obraId in names && names[rows[k].obraId] == obra
    ensures obra in ValueByObra(rows, names) <==> obra in QuantityByObra(rows, names)
    ensures obra in QuantityByObra(rows, names) ==>
              && QuantityByObra(rows, names)[obra] == QuantityOfObra(rows, names, obra)
              && ValueByObra(rows, names)[obra] == ValueOfObra(rows, names, obra)
  {
    var w := WithNames(rows, names);
    var key, q, v := ObraOf, LabelledQuantity, LabelledValue;
    Aggregates.SumByHasKey(w, key, q, obra);
    Aggregates.SumByHasKey(w, key, v, obra);
    WithNamesHas(rows, names, obra);
    WithNamesSums(rows, names, obra);
    if obra in QuantityByObra(rows, names) {
      Aggregates.SumByGroup(w, key, q, obra);
      Aggregates.SumByGroup(w, key, v, obra);
    }
  }

  /** The JSON object written for an item: every key present, a missing subcategory written as null. */
  function StoredItemOf(it: Ledger.Item): StoredItem
  {
    StoredItem(Present(it.name), if it.subcategoria.Some? then Present(it.subcategoria.value) else Null,
               Present(it.quantidade), Present(it.valor))
  }

  function StoredItems(items: seq<Ledger.Item>): seq<StoredItem>
  {
    if items == [] then [] else StoredItems(items[..|items| - 1]) + [StoredItemOf(items[|items| - 1])]
  }

  /** How a saved movement reads back: its `Itens` list when it has one, null otherwise. */
  function Stored(e: Ledger.Entry): StoredEntry
  {
    StoredEntry(e.obraId, e.data, e.descricao, e.valor,
                if e.itens.Some? then ItemList(StoredItems(e.itens.value)) else NoItens)
  }

  lemma {:induction false} StoredItemsValue(se: StoredEntry, items: seq<Ledger.Item>)
    ensures |StoredItems(items)| == |items|
    ensures TotalValue(ItemRows(se, StoredItems(items))) == Ledger.ItemsTotal(items)
  {
    if items != [] {
      var init := items[..|items| - 1];
      StoredItemsValue(se, init);
      assert StoredItems(items)[..|StoredItems(items)| - 1] == StoredItems(init);
    }
  }

  /**
   * The item rows of an itemised movement saved by the detail or manual flows add up to the movement's
   * declared value: the report loses nothing and counts nothing twice.
   */
  lemma ExpandedValueMatches(e: Ledger.Entry)
    requires Ledger.ItemsMatchTotal(e) && e.itens.Some? && e.itens.value != []
    ensures Itemised(Stored(e))
    ensures |ExpandOne(Stored(e))| == |e.itens.value|
    ensures TotalValue(ExpandOne(Stored(e))) == e.valor
  {
    StoredItemsValue(Stored(e), e.itens.value);
    ItemRowsSize(Stored(e), StoredItems(e.itens.value));
  }

  /**
   * What the page shows: a notice when no material was saved, another when none is of the subcategory, or
   * the figures; or the failure of reading a `Subcategoria` column that the expanded table does not have.
   */
  datatype MaterialView =
    | NoMaterial
    | NoSubcategoryColumn
    | NoneOfSubcategory
    | Shown(totalQuantidade: real, totalValor: real, precoMedio: Option<real>, history: seq<ReportRow>,
            quantidadePorObra: map<string, real>, valorPorObra: map<string, real>)

  function View(es: seq<StoredEntry>, names: map<int, string>, sel: string): MaterialView
  {
    if es == [] then NoMaterial
    else
      var rows := OfSubcategory(ExpandAll(es), sel);
      if rows == [] then NoneOfSubcategory
      else Shown(TotalQuantity(rows), TotalValue(rows), MeanValue(rows), History(rows),
                 QuantityByObra(rows, names), ValueByObra(rows, names))
  }

  /** Some row is kept by the subcategory filter exactly when some row is of that subcategory. */
  lemma SomeOfSubcategory(rows: seq<ReportRow>, sel: string)
    ensures OfSubcategory(rows, sel) != [] <==> exists r | r in rows :: r.subcategoria == Some(sel)
  {
    if exists r | r in rows :: r.subcategoria == Some(sel) {
      var r :| r in rows && r.subcategoria == Some(sel);
      OfSubcategoryMembers(rows, sel, r);
    }
    if OfSubcategory(rows, sel) != [] {
      OfSubcategoryMembers(rows, sel, OfSubcategory(rows, sel)[0]);
    }
  }

  /**
   * The page stops with a notice exactly when no material was saved, and shows the figures exactly when
   * some expanded row is of the chosen subcategory; reading the subcategory never fails.
   */
  lemma ViewCases(es: seq<StoredEntry>, names: map<int, string>, sel: string)
    ensures View(es, names, sel) == NoMaterial <==> es == []
    ensures View(es, names, sel).Shown? <==> exists r | r in ExpandAll(es) :: r.subcategoria == Some(sel)
    ensures !View(es, names, sel).NoSubcategoryColumn?
  {
    SomeOfSubcategory(ExpandAll(es), sel);
  }

  /** Some saved movement has a non-empty `Itens` list, so some expanded row carries a `Subcategoria` key. */
  predicate AnyItemised(es: seq<StoredEntry>)
  {
    exists k | 0 <= k < |es| :: Itemised(es[k])
  }

  /**
   * The page as written: `pd.DataFrame(rows_expanded)` only has a `Subcategoria` column when some row was
   * expanded from an item, so with saved movements none of which is itemised, `df["Subcategoria"]` raises.
   */
  function ViewAsWritten(es: seq<StoredEntry>, names: map<int, string>, sel: string): MaterialView
  {
    if es != [] && !AnyItemised(es) then NoSubcategoryColumn else View(es, names, sel)
  }

  /** The page fails exactly when material was saved but none of it is itemised; otherwise it agrees with `View`. */
  lemma ViewAsWrittenCases(es: seq<StoredEntry>, names: map<int, string>, sel: string)
    ensures ViewAsWritten(es, names, sel) == NoSubcategoryColumn <==> es != [] && !AnyItemised(es)
    ensures es == [] || AnyItemised(es) ==> ViewAsWritten(es, names, sel) == View(es, names, sel)
  {
    ViewCases(es, names, sel);
  }

  /**
   * One Material movement saved without items, as the select step saves an unticked purchase: the page
   * fails, where the intended notice is that nothing is of the chosen subcategory.
   */
  lemma PlainMaterialOnly(e: StoredEntry, names: map<int, string>, sel: string)
    requires !Itemised(e)
    ensures ViewAsWritten([e], names, sel) == NoSubcategoryColumn
    ensures View([e], names, sel) == NoneOfSubcategory
  {
    assert ExpandAll([e]) == ExpandAll([e][..0]) + ExpandOne(e);
    assert ExpandAll([e]) == [PlainRow(e)];
    PlainRowNeverSelected(e, sel);
  }
}
