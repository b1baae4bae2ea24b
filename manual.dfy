/**
 * The manual entry page: one movement typed in by hand for a chosen project. A Material purchase is entered
 * as a list of items whose values make up its total; any other category is a single value with a description.
 */
module ManualEntry {
  import opened Base
  import Text
  import Ledger
  import Store

  /** The categories the page offers. */
  const Categorias: seq<string> := ["Depósito", "Mão de Obra", "Material", "Outros"]

  /**
   * The page's inputs once a category is picked: the project's id, the date, the description, the value
   * typed in (used unless the category is Material) and the item grid (used only for Material).
   */
  datatype ManualForm = ManualForm(obraId: int, categoria: string, data: Date, descricao: string,
                                   valorDigitado: real, itens: seq<Ledger.Item>)

  datatype ManualError = NonPositiveAmount | EmptyItems | BlankItemName | BlankDescription

  /** What the widgets allow: a listed category, a typed value not below 0, grid rows within their column limits. */
  predicate FormAllowed(f: ManualForm)
  {
    f.categoria in Categorias && f.valorDigitado >= 0.0 && forall k | 0 <= k < |f.itens| :: Ledger.ItemAllowed(f.itens[k])
  }

  /** The total shown for a Material purchase: 0 for an empty grid, otherwise the sum of the item values. */
  function MaterialTotal(itens: seq<Ledger.Item>): real
  {
    if itens == [] then 0.0 else Ledger.ItemsTotal(itens)
  }

  /** The value the page checks and saves. */
  function FormValue(f: ManualForm): real
  {
    if f.categoria == "Material" then MaterialTotal(f.itens) else f.valorDigitado
  }

  /** The movement "Confirmar Lançamento" saves for `f`, or the first check it fails. */
  function ManualEntrySpec(f: ManualForm): Result<Ledger.Entry, ManualError>
  {
    var valor := FormValue(f);
    if valor <= 0.0 then Err(NonPositiveAmount)
    else if f.categoria == "Material" then
      if f.itens == [] then Err(EmptyItems)
      else if exists k | 0 <= k < |f.itens| :: Text.IsBlank(f.itens[k].name) then Err(BlankItemName)
      else Ok(Ledger.Entry(f.obraId, f.data, None, f.categoria, valor, f.descricao, Some(f.itens)))
    else if Text.IsBlank(f.descricao) then Err(BlankDescription)
    else Ok(Ledger.Entry(f.obraId, f.data, None, f.categoria, valor, f.descricao, None))
  }

  /** The checks, with the loop that copies the grid into the item list and stops at the first blank item name. */
  method BuildEntry(f: ManualForm) returns (r: Result<Ledger.Entry, ManualError>)
    ensures r == ManualEntrySpec(f)
  {
    var valor := FormValue(f);
    if valor <= 0.0 {
      return Err(NonPositiveAmount);
    }
    if f.categoria == "Material" {
      if |f.itens| == 0 {
        return Err(EmptyItems);
      }
      var itens: seq<Ledger.Item> := [];
      var i := 0;
      while i < |f.itens|
        invariant 0 <= i <= |f.itens|
        invariant itens == f.itens[..i]
        invariant forall k | 0 <= k < i :: !Text.IsBlank(f.itens[k].name)
      {
        if Text.IsBlank(f.itens[i].name) {
          return Err(BlankItemName);
        }
        itens := itens + [f.itens[i]];
        i := i + 1;
      }
      assert itens == f.itens;
      return Ok(Ledger.Entry(f.obraId, f.data, None, f.categoria, valor, f.descricao, Some(itens)));
    }
    if Text.IsBlank(f.descricao) {
      return Err(BlankDescription);
    }
    return Ok(Ledger.Entry(f.obraId, f.data, None, f.categoria, valor, f.descricao, None));
  }

  /**
   * A saved movement is positive, has no bank text and belongs to the chosen project under the chosen
   * category; a Material one carries the non-empty grid, every item named, and is worth exactly the sum of its
   * items; any other one has no items and a non-blank description.
   */
  lemma ManualEntryOk(f: ManualForm)
    requires ManualEntrySpec(f).Ok?
    ensures var e := ManualEntrySpec(f).value;
            && e.valor > 0.0 && e.detalhes.None? && e.obraId == f.obraId && e.categoria == f.categoria
            && e.data == f.data && e.descricao == f.descricao
            && Ledger.ItemsMatchTotal(e)
            && (f.categoria == "Material" ==>
                  && e.itens == Some(f.itens) && f.itens != []
                  && (forall k | 0 <= k < |f.itens| :: !Text.IsBlank(f.itens[k].name)))
            && (f.categoria != "Material" ==> e.itens.None? && !Text.IsBlank(f.descricao) && e.valor == f.valorDigitado)
  {
  }

  /**
   * The empty-grid message can never be shown: an empty grid totals 0, which the value check rejects first.
   * A Material purchase whose items are all worth 0 is rejected the same way.
   */
  lemma EmptyItemsUnreachable(f: ManualForm)
    ensures ManualEntrySpec(f) != Err(EmptyItems)
    ensures f.categoria == "Material" && f.itens == [] ==> ManualEntrySpec(f) == Err(NonPositiveAmount)
  {
  }

  /** Each error names the guard that fails first; a Material purchase's description is never checked. */
  lemma ManualEntryErrors(f: ManualForm)
    ensures ManualEntrySpec(f) == Err(NonPositiveAmount) <==> FormValue(f) <= 0.0
    ensures ManualEntrySpec(f) == Err(BlankDescription) <==>
              FormValue(f) > 0.0 && f.categoria != "Material" && Text.IsBlank(f.descricao)
    ensures ManualEntrySpec(f) == Err(BlankItemName) <==>
              && FormValue(f) > 0.0 && f.categoria == "Material"
              && exists k | 0 <= k < |f.itens| :: Text.IsBlank(f.itens[k].name)
  {
  }

  /** Under the widget limits a Material purchase is refused for its value only when every item is worth 0. */
  lemma {:induction false} MaterialValueZero(f: ManualForm)
    requires FormAllowed(f) && f.categoria == "Material" && f.itens != []
    ensures ManualEntrySpec(f) == Err(NonPositiveAmount) <==> forall k | 0 <= k < |f.itens| :: f.itens[k].valor == 0.0
  {
    NonNegativeSum(f.itens);
  }

  lemma {:induction false} NonNegativeSum(itens: seq<Ledger.Item>)
    requires forall k | 0 <= k < |itens| :: itens[k].valor >= 0.0
    ensures Ledger.ItemsTotal(itens) >= 0.0
    ensures Ledger.ItemsTotal(itens) == 0.0 <==> forall k | 0 <= k < |itens| :: itens[k].valor == 0.0
  {
    if itens != [] {
      var init := itens[..|itens| - 1];
      NonNegativeSum(init);
      assert Ledger.ItemsTotal(itens) == Ledger.ItemsTotal(init) + itens[|itens| - 1].valor;
      forall k | 0 <= k < |init| ensures init[k] == itens[k] {
      }
    }
  }

  datatype ConfirmOutcome = Refused(error: ManualError) | SaveFailed | Confirmed(feedback: Ledger.Feedback)

  /** "Confirmar Lançamento": the checks, then the upsert of the one movement. */
  method Confirm(f: ManualForm, db: Store.Database) returns (r: ConfirmOutcome)
    requires db.Valid()
    modifies db
    ensures db.Valid()
    ensures db.projects == old(db.projects) && db.online == old(db.online)
    ensures ManualEntrySpec(f).Err? ==> r == Refused(ManualEntrySpec(f).error) && db.entries == old(db.entries)
    ensures ManualEntrySpec(f).Ok? && !db.online ==> r == SaveFailed && db.entries == old(db.entries)
    ensures ManualEntrySpec(f).Ok? && db.online ==>
              && db.entries == Ledger.InsertAll(old(db.entries), [ManualEntrySpec(f).value])
              && r == Confirmed(Ledger.FeedbackFor(Ledger.CountNew(old(db.entries), [ManualEntrySpec(f).value]), 1))
  {
    var e := BuildEntry(f);
    if e.Err? {
      return Refused(e.error);
    }
    var s := db.SaveEntries([e.value]);
    if s.Err? {
      return SaveFailed;
    }
    r := Confirmed(s.value);
  }
}
