/**
 * The two dialogs the statement import opens and the session state they share: the onboarding dialog that
 * registers the unknown projects one by one, and the material dialog that first saves the purchases not
 * selected for itemising and then takes the selected ones one at a time, each with its list of items.
 */
module Workflow {
  import opened Base
  import Text
  import Ledger
  import Projects
  import Statement
  import Store

  /** Which dialog is on screen. */
  datatype Dialog = Closed | Onboarding | Itemising

  /** The session's `modal` key: absent, or the step the open dialog is in. */
  datatype Modal = NoModal | Cadastro | Selecionar | Detalhar

  /** The onboarding form: the name field is fixed to the head of the queue, the user fills in the rest. */
  datatype OnboardingForm = OnboardingForm(endereco: string, orcamento: real, clienteNome: string,
                                           clienteCpf: string, inicio: Date, fim: Date)

  function WithName(nome: string, f: OnboardingForm): Projects.ProjectForm
  {
    Projects.ProjectForm(nome, f.endereco, f.orcamento, f.clienteNome, f.clienteCpf, f.inicio, f.fim)
  }

  datatype FormOutcome = Rejected(error: Projects.ProjectError) | RegisterFailed | Registered(id: int)

  datatype SelectOutcome = SelectLookupFailed | SelectSaveFailed | Continued(saved: Option<Ledger.Feedback>)

  datatype DetailOutcome =
    | EmptyGrid
    | AmountMismatch(itemsTotal: real, declared: real)
    | DetailLookupFailed
    | DetailSaveFailed
    | Saved(feedback: Ledger.Feedback)

  /** The rows whose "Detalhar" box is unticked, in order. */
  function Unflagged(rows: seq<Statement.ValidRow>, flags: seq<bool>): seq<Statement.ValidRow>
    requires |flags| == |rows|
  {
    if rows == [] then []
    else Unflagged(rows[..|rows| - 1], flags[..|rows| - 1]) + (if flags[|rows| - 1] then [] else [rows[|rows| - 1]])
  }

  /** The rows whose "Detalhar" box is ticked, in order: `df_selecionado`. */
  function Flagged(rows: seq<Statement.ValidRow>, flags: seq<bool>): seq<Statement.ValidRow>
    requires |flags| == |rows|
  {
    if rows == [] then []
    else Flagged(rows[..|rows| - 1], flags[..|rows| - 1]) + (if flags[|rows| - 1] then [rows[|rows| - 1]] else [])
  }

  /** Ticking splits the purchases in two without losing or repeating any: each goes one way or the other. */
  lemma {:induction false} SplitCovers(rows: seq<Statement.ValidRow>, flags: seq<bool>)
    requires |flags| == |rows|
    ensures multiset(Unflagged(rows, flags)) + multiset(Flagged(rows, flags)) == multiset(rows)
  {
    if rows != [] {
      var n := |rows| - 1;
      SplitCovers(rows[..n], flags[..n]);
      assert rows == rows[..n] + [rows[n]];
    }
  }

  /** Nothing is itemised exactly when no box is ticked. */
  lemma {:induction false} FlaggedEmpty(rows: seq<Statement.ValidRow>, flags: seq<bool>)
    requires |flags| == |rows|
    ensures Flagged(rows, flags) == [] <==> forall k | 0 <= k < |flags| :: !flags[k]
  {
    if rows != [] {
      var n := |rows| - 1;
      FlaggedEmpty(rows[..n], flags[..n]);
      assert forall k | 0 <= k < n :: flags[..n][k] == flags[k];
    }
  }

  /** Nothing is saved directly exactly when every box is ticked. */
  lemma {:induction false} UnflaggedEmpty(rows: seq<Statement.ValidRow>, flags: seq<bool>)
    requires |flags| == |rows|
    ensures Unflagged(rows, flags) == [] <==> forall k | 0 <= k < |flags| :: flags[k]
  {
    if rows != [] {
      var n := |rows| - 1;
      UnflaggedEmpty(rows[..n], flags[..n]);
      assert forall k | 0 <= k < n :: flags[..n][k] == flags[k];
    }
  }

  /**
   * The entries of the unticked rows, each under the id of its upper-cased project name; None when a name
   * is missing from the map (the lookup raises and nothing is saved).
   */
  function EntriesFor(rows: seq<Statement.ValidRow>, projects: map<string, int>): Option<seq<Ledger.Entry>>
  {
    if rows == [] then Some([])
    else
      var last := rows[|rows| - 1];
      match EntriesFor(rows[..|rows| - 1], projects)
      case None => None
      case Some(es) =>
        if Text.Upper(last.obra) in projects then Some(es + [Statement.EntryFor(last, projects[Text.Upper(last.obra)])])
        else None
  }

  /** The lookup succeeds exactly when every name is known, and then gives one entry per row, in order. */
  lemma {:induction false} EntriesForCases(rows: seq<Statement.ValidRow>, projects: map<string, int>)
    ensures EntriesFor(rows, projects).Some? <==> forall k | 0 <= k < |rows| :: Text.Upper(rows[k].obra) in projects
    ensures EntriesFor(rows, projects).Some? ==>
              var es := EntriesFor(rows, projects).value;
              && |es| == |rows|
              && forall k | 0 <= k < |rows| :: es[k] == Statement.EntryFor(rows[k], projects[Text.Upper(rows[k].obra)])
  {
    if rows != [] {
      var init := rows[..|rows| - 1];
      EntriesForCases(init, projects);
      forall k | 0 <= k < |init| ensures init[k] == rows[k] {
      }
    }
  }

  /**
   * The material rows were found known when the statement was partitioned; projects are only ever added,
   * so looking them up again when saving cannot fail.
   */
  lemma MaterialLookupSucceeds(rows: seq<Statement.ValidRow>, ps: seq<Projects.Project>, more: seq<Projects.Project>,
                               r: Statement.ValidRow)
    requires r in Statement.MaterialRows(rows, Projects.NameMap(ps))
    ensures Text.Upper(r.obra) in Projects.NameMap(ps + more)
  {
    Statement.MaterialRowsMembers(rows, Projects.NameMap(ps), r);
    Projects.NameMapExtends(ps, more, Text.Upper(r.obra));
  }

  /** The single itemised entry saved for a selected purchase: the declared value, the items in grid order. */
  function DetailEntry(head: Statement.ValidRow, grid: seq<Ledger.Item>, obraId: int): Ledger.Entry
  {
    Ledger.Entry(obraId, head.data, head.detalhes, head.categoria, head.valor, head.descricao, Some(grid))
  }

  /** An entry is written only when its items add up to its declared value, so stored itemised entries are consistent. */
  lemma DetailEntryConsistent(head: Statement.ValidRow, grid: seq<Ledger.Item>, obraId: int)
    requires Ledger.ItemsTotal(grid) == head.valor
    ensures Ledger.ItemsMatchTotal(DetailEntry(head, grid, obraId))
    ensures DetailEntry(head, grid, obraId).valor == head.valor
    ensures DetailEntry(head, grid, obraId).Key() ==
              Statement.EntryFor(head, obraId).Key()
  {
  }

  /** Builds the `Itens` list from the rows of the item grid, one object per row, in the grid's order. */
  method CollectItems(grid: seq<Ledger.Item>) returns (items: seq<Ledger.Item>)
    ensures items == grid
  {
    items := [];
    var i := 0;
    while i < |grid|
      invariant 0 <= i <= |grid|
      invariant items == grid[..i]
    {
      items := items + [grid[i]];
      i := i + 1;
    }
  }

  class Session {
    var dialog: Dialog
    var modal: Modal
    /** `obras_desconhecidas`: the names still to register. */
    var queue: seq<string>
    /** `lista_material`: the material purchases offered for itemising. */
    var material: seq<Statement.ValidRow>
    /** `df_selecionado`: the ticked purchases still to itemise. */
    var selected: seq<Statement.ValidRow>

    /** An open onboarding dialog has a name to show, and the itemising step has a purchase to show. */
    ghost predicate Valid()
      reads this
    {
      && (dialog == Onboarding ==> queue != [])
      && (dialog == Itemising ==> material != [])
      && (dialog == Itemising && modal == Detalhar ==> selected != [])
    }

    constructor ()
      ensures Valid()
      ensures dialog == Closed && modal == NoModal && queue == [] && material == [] && selected == []
    {
      dialog := Closed;
      modal := NoModal;
      queue := [];
      material := [];
      selected := [];
    }

    /**
     * "Salvar Lançamentos": with any unknown project, only the onboarding dialog opens and nothing is saved;
     * otherwise the material purchases go to the material dialog and the ready entries are upserted.
     */
    method SubmitImport(rows: seq<Statement.ValidRow>, db: Store.Database)
      returns (saved: Option<Result<Ledger.Feedback, Store.WriteError>>)
      requires Valid() && db.Valid()
      requires dialog == Closed && rows != []
      modifies this, db
      ensures Valid() && db.Valid()
      ensures db.projects == old(db.projects) && db.online == old(db.online) && selected == old(selected)
      ensures var m := Projects.NameMap(old(db.projects));
              Statement.UnknownNames(rows, m) != [] ==>
                && dialog == Onboarding && modal == old(modal)
                && queue == Statement.OnboardingQueue(rows, m) && material == old(material)
                && saved.None? && db.entries == old(db.entries)
      ensures var m := Projects.NameMap(old(db.projects));
              var mat := Statement.MaterialRows(rows, m);
              Statement.UnknownNames(rows, m) == [] ==>
                && queue == old(queue)
                && (mat != [] ==> dialog == Itemising && modal == Selecionar && material == mat)
                && (mat == [] ==> dialog == Closed && modal == old(modal) && material == old(material))
      ensures var m := Projects.NameMap(old(db.projects));
              var ready := Statement.ReadyEntries(rows, m);
              Statement.UnknownNames(rows, m) == [] ==>
                && (ready == [] ==> saved.None? && db.entries == old(db.entries))
                && (ready != [] && old(db.online) ==>
                      && saved == Some(Ok(Ledger.FeedbackFor(Ledger.CountNew(old(db.entries), ready), |ready|)))
                      && db.entries == Ledger.InsertAll(old(db.entries), ready))
                && (ready != [] && !old(db.online) ==> saved == Some(Err(Store.Unavailable)) && db.entries == old(db.entries))
    {
      var m := Projects.NameMap(db.projects);
      var unknown, mat, ready := Statement.Partition(rows, m);
      saved := None;
      if |unknown| == 0 {
        if |mat| > 0 {
          OfferMaterial(mat);
        }
        if |ready| > 0 {
          var r := db.SaveEntries(ready);
          saved := Some(r);
        }
      } else {
        Statement.OnboardingQueueCorrect(rows, m);
        OpenOnboarding(Statement.Dedup(unknown));
      }
    }

    /** `popup_detalhar_material(supabase, lista_material)`: the material dialog opens at the selection step. */
    method OfferMaterial(mat: seq<Statement.ValidRow>)
      requires Valid() && mat != []
      modifies this
      ensures Valid()
      ensures dialog == Itemising && modal == Selecionar && material == mat
      ensures queue == old(queue) && selected == old(selected)
    {
      modal := Selecionar;
      material := mat;
      dialog := Itemising;
    }

    /** `popup_cadastro_obras(supabase, obras_desconhecidas)`: the onboarding dialog opens on the first unknown name. */
    method OpenOnboarding(names: seq<string>)
      requires Valid() && names != []
      modifies this
      ensures Valid()
      ensures dialog == Onboarding && queue == names
      ensures modal == old(modal) && material == old(material) && selected == old(selected)
    {
      queue := names;
      dialog := Onboarding;
    }

    /** "Sim, Cadastrar Todas": the prompt turns into the registration form. */
    method ConfirmOnboarding()
      requires Valid() && dialog == Onboarding && modal != Cadastro
      modifies this
      ensures Valid()
      ensures modal == Cadastro && dialog == Onboarding
      ensures queue == old(queue) && material == old(material) && selected == old(selected)
    {
      modal := Cadastro;
    }

    /** "Cancelar" on the prompt: the page reruns and the dialog is gone; the session keys stay. */
    method CancelOnboarding()
      requires Valid() && dialog == Onboarding && modal != Cadastro
      modifies this
      ensures Valid()
      ensures dialog == Closed && modal == old(modal)
      ensures queue == old(queue) && material == old(material) && selected == old(selected)
    {
      dialog := Closed;
    }

    /** Closing a dialog from outside runs `on_dismiss`, which deletes the `modal` key. */
    method Dismiss()
      requires Valid() && dialog != Closed
      modifies this
      ensures Valid()
      ensures dialog == Closed && modal == NoModal
      ensures queue == old(queue) && material == old(material) && selected == old(selected)
    {
      dialog := Closed;
      modal := NoModal;
    }

    /**
     * "Criar Nova Obra" for the name at the head of the queue: a form that fails the guard chain changes
     * nothing; a failed insert leaves the queue and drops back to the prompt; a successful one removes the
     * name, and the dialog closes once the queue is empty.
     */
    method SubmitProjectForm(form: OnboardingForm, db: Store.Database) returns (r: FormOutcome)
      requires Valid() && db.Valid()
      requires dialog == Onboarding && modal == Cadastro
      modifies this, db
      ensures Valid() && db.Valid()
      ensures db.entries == old(db.entries) && db.online == old(db.online)
      ensures material == old(material) && selected == old(selected)
      ensures var v := Projects.Validate(WithName(old(queue)[0], form));
              v.Err? ==> && r == Rejected(v.error) && db.projects == old(db.projects)
                         && dialog == old(dialog) && modal == old(modal) && queue == old(queue)
      ensures var v := Projects.Validate(WithName(old(queue)[0], form));
              v.Ok? && !old(db.online) ==>
                && r == RegisterFailed && db.projects == old(db.projects)
                && dialog == Onboarding && modal == NoModal && queue == old(queue)
      ensures var v := Projects.Validate(WithName(old(queue)[0], form));
              v.Ok? && old(db.online) ==>
                && r == Registered(old(db.nextId))
                && db.projects == old(db.projects) + [Projects.Project(old(db.nextId), v.value)]
                && v.value.nome == old(queue)[0]
                && queue == old(queue)[1..]
                && (queue != [] ==> dialog == Onboarding && modal == Cadastro)
                && (queue == [] ==> dialog == Closed && modal == NoModal)
    {
      var f := WithName(queue[0], form);
      var v := Projects.Validate(f);
      if v.Err? {
        return Rejected(v.error);
      }
      var ins := db.InsertProject(v.value);
      if ins.Err? {
        modal := NoModal;
        return RegisterFailed;
      }
      queue := queue[1..];
      if |queue| == 0 {
        modal := NoModal;
        dialog := Closed;
      }
      r := Registered(ins.value);
    }

    /**
     * "Continuar" on the selection step: when some box is unticked, those purchases are upserted (a missing
     * project or a failed write stops here); when some box is ticked, the dialog moves on to itemising them.
     */
    method SelectContinue(flags: seq<bool>, db: Store.Database) returns (r: SelectOutcome)
      requires Valid() && db.Valid()
      requires dialog == Itemising && modal == Selecionar && |flags| == |material|
      modifies this, db
      ensures Valid() && db.Valid()
      ensures db.projects == old(db.projects) && db.online == old(db.online)
      ensures dialog == old(dialog) && queue == old(queue) && material == old(material)
      ensures var keep := Unflagged(material, flags);
              var es := EntriesFor(keep, Projects.NameMap(db.projects));
              && (keep == [] ==> db.entries == old(db.entries))
              && (keep != [] && es.None? ==> r == SelectLookupFailed && db.entries == old(db.entries))
              && (keep != [] && es.Some? && !db.online ==> r == SelectSaveFailed && db.entries == old(db.entries))
              && (keep != [] && es.Some? && db.online ==>
                    db.entries == Ledger.InsertAll(old(db.entries), es.value)
                    && r == Continued(Some(Ledger.FeedbackFor(Ledger.CountNew(old(db.entries), es.value), |es.value|))))
      ensures r.Continued? && Flagged(material, flags) != [] ==> modal == Detalhar && selected == Flagged(material, flags)
      ensures !(r.Continued? && Flagged(material, flags) != []) ==> modal == old(modal) && selected == old(selected)
      ensures Unflagged(material, flags) == [] ==> r == Continued(None)
    {
      var keep := Unflagged(material, flags);
      var pick := Flagged(material, flags);
      r := Continued(None);
      if |keep| > 0 {
        var es := EntriesFor(keep, Projects.NameMap(db.projects));
        if es.None? {
          return SelectLookupFailed;
        }
        var s := db.SaveEntries(es.value);
        if s.Err? {
          return SelectSaveFailed;
        }
        r := Continued(Some(s.value));
      }
      if |pick| > 0 {
        selected := pick;
        modal := Detalhar;
      }
    }

    /** "Cancelar" on the selection step: the page reruns and the dialog is gone; the session keys stay. */
    method CancelSelect()
      requires Valid() && dialog == Itemising && modal == Selecionar
      modifies this
      ensures Valid()
      ensures dialog == Closed && modal == Selecionar
      ensures queue == old(queue) && material == old(material) && selected == old(selected)
    {
      dialog := Closed;
    }

    /**
     * "Salvar Movimentação" for the purchase at the head of `selected`: the grid must hold an item and its
     * values must add up exactly to the purchase's value; the purchase is then saved once, with its items,
     * and removed from the queue; the dialog closes after the last one. A failed write changes nothing.
     */
    method SubmitDetail(grid: seq<Ledger.Item>, db: Store.Database) returns (r: DetailOutcome)
      requires Valid() && db.Valid()
      requires dialog == Itemising && modal == Detalhar
      requires forall k | 0 <= k < |grid| :: Ledger.ItemAllowed(grid[k])
      modifies this, db
      ensures Valid() && db.Valid()
      ensures db.projects == old(db.projects) && db.online == old(db.online)
      ensures queue == old(queue) && material == old(material)
      ensures grid == [] ==> r == EmptyGrid
      ensures grid != [] && Ledger.ItemsTotal(grid) != old(selected)[0].valor ==>
                r == AmountMismatch(Ledger.ItemsTotal(grid), old(selected)[0].valor)
      ensures !r.Saved? ==> db.entries == old(db.entries) && selected == old(selected)
                            && dialog == old(dialog) && modal == old(modal)
      ensures r.Saved? ==>
                var head := old(selected)[0];
                var name := Text.Upper(head.obra);
                && grid != [] && Ledger.ItemsTotal(grid) == head.valor && old(db.online)
                && name in Projects.NameMap(db.projects)
                && Ledger.ItemsMatchTotal(DetailEntry(head, grid, Projects.NameMap(db.projects)[name]))
                && db.entries == Ledger.InsertAll(old(db.entries), [DetailEntry(head, grid, Projects.NameMap(db.projects)[name])])
                && selected == old(selected)[1..]
                && (selected != [] ==> dialog == Itemising && modal == Detalhar)
                && (selected == [] ==> dialog == Closed && modal == NoModal)
      ensures (grid != [] && Ledger.ItemsTotal(grid) == old(selected)[0].valor && old(db.online)
               && Text.Upper(old(selected)[0].obra) in Projects.NameMap(db.projects)) ==> r.Saved?
    {
      var head := selected[0];
      if |grid| == 0 {
        return EmptyGrid;
      }
      var total := Ledger.ItemsTotal(grid);
      if total != head.valor {
        return AmountMismatch(total, head.valor);
      }
      var m := Projects.NameMap(db.projects);
      var name := Text.Upper(head.obra);
      if name !in m {
        return DetailLookupFailed;
      }
      var items := CollectItems(grid);
      var entry := DetailEntry(head, items, m[name]);
      DetailEntryConsistent(head, items, m[name]);
      var s := db.SaveEntries([entry]);
      if s.Err? {
        return DetailSaveFailed;
      }
      selected := selected[1..];
      if |selected| == 0 {
        modal := NoModal;
        dialog := Closed;
      }
      r := Saved(s.value);
    }
  }
}
