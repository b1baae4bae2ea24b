/**
 * The panel of one project: the project is chosen by name, its budget, total spend and balance are shown
 * as cards, the spend as a share of the budget only when there is a budget, the spend per category, and
 * the statement of its movements filtered by category.
 */
module ProjectPanel {
  import opened Base
  import Aggregates
  import Dashboard

  /** `{row["Nome"]: row["id"] for row in ...}`: a later project with the same name replaces an earlier one. */
  function Choices(ps: seq<Dashboard.ProjectRow>): map<string, int>
  {
    if ps == [] then map[] else Choices(ps[..|ps| - 1])[ps[|ps| - 1].nome := ps[|ps| - 1].id]
  }

  /**
   * A name can be chosen exactly when some project has it, and it stands for the last project with that
   * name.
   */
  lemma {:induction false} ChoicesLookup(ps: seq<Dashboard.ProjectRow>, name: string)
    ensures name in Choices(ps) <==> exists k | 0 <= k < |ps| :: ps[k].nome == name
    ensures name in Choices(ps) ==>
              exists k | 0 <= k < |ps| :: ps[k].nome == name && ps[k].id == Choices(ps)[name]
                                         && forall j | k < j < |ps| :: ps[j].nome != name
  {
    if ps != [] {
      var init, last := ps[..|ps| - 1], ps[|ps| - 1];
      ChoicesLookup(init, name);
      if last.nome != name {
        if exists k | 0 <= k < |ps| :: ps[k].nome == name {
          var k :| 0 <= k < |ps| && ps[k].nome == name;
          assert init[k] == ps[k];
        }
        if name in Choices(ps) {
          var k :| 0 <= k < |init| && init[k].nome == name && init[k].id == Choices(init)[name]
                   && forall j | k < j < |init| :: init[j].nome != name;
          assert ps[k] == init[k];
        }
      }
    }
  }

  /** `float(x) if x else 0.0`: a null or zero budget reads as 0. */
  function Budget(x: Dashboard.RawNum): (r: real)
    ensures r == Dashboard.Coerce(x)
  {
    if x.Num? && x.value != 0.0 then x.value else 0.0
  }

  /** `.eq("obra_id", id)`: the movements of one project, in their order. */
  function MovementsOf(all: seq<Dashboard.MovementRow>, id: int): seq<Dashboard.MovementRow>
  {
    if all == [] then []
    else
      var last := all[|all| - 1];
      MovementsOf(all[..|all| - 1], id) + (if last.obraId == id then [last] else [])
  }

  /** The spend of the movements fetched for a project is the sum of exactly that project's movements. */
  lemma {:induction false} MovementsOfSum(all: seq<Dashboard.MovementRow>, id: int)
    ensures Aggregates.SumOf(MovementsOf(all, id), Dashboard.MovementValue)
            == Aggregates.SumWhere(all, Dashboard.MovementObra, Dashboard.MovementValue, id)
  {
    if all != [] {
      var init, last := all[..|all| - 1], all[|all| - 1];
      MovementsOfSum(init, id);
      Aggregates.SumOfAppend(MovementsOf(init, id), if last.obraId == id then [last] else [], Dashboard.MovementValue);
      assert [last][..0] == [];
    }
  }

  /** The three cards at the top of the panel. */
  datatype Cards = Cards(orcamento: real, totalGasto: real, saldo: real, consumo: Option<real>)

  /**
   * The cards for a budget and the project's movements; without movements the spend is 0 and the balance
   * is the budget.
   */
  function CardsFor(budget: Dashboard.RawNum, ms: seq<Dashboard.MovementRow>): (c: Cards)
    ensures ms == [] ==> c.totalGasto == 0.0 && c.saldo == c.orcamento
    ensures c.consumo.Some? <==> c.orcamento > 0.0
    ensures c.consumo.Some? ==> c.consumo.value * c.orcamento == c.totalGasto * 100.0
  {
    var orcamento := Budget(budget);
    var gasto := if ms == [] then 0.0 else Aggregates.SumOf(ms, Dashboard.MovementValue);
    Cards(orcamento, gasto, orcamento - gasto,
          if orcamento > 0.0 then Some(gasto / orcamento * 100.0) else None)
  }

  /**
   * The panel of a project agrees with its row of the dashboard summary: same budget, spend and balance,
   * and the same share wherever the panel shows one.
   */
  lemma PanelAgreesWithDashboard(ps: seq<Dashboard.ProjectRow>, all: seq<Dashboard.MovementRow>, k: int)
    requires 0 <= k < |ps|
    ensures var c := CardsFor(ps[k].orcamento, MovementsOf(all, ps[k].id));
            var s := Dashboard.Summary(ps, all)[k];
            && c.orcamento == s.orcamento
            && c.totalGasto == s.totalGasto
            && c.saldo == s.saldo
            && (c.consumo.Some? ==> c.consumo.value == s.percentual)
  {
    Dashboard.SummarySpend(ps, all, k);
    Dashboard.SummaryAt(ps, all, k);
    MovementsOfSum(all, ps[k].id);
  }

  /** `groupby("Categoria")["Valor"].sum()` of the project's movements. */
  function SpendByCategory(ms: seq<Dashboard.MovementRow>): map<string, real>
  {
    Aggregates.SumBy(ms, Dashboard.MovementCategoria, Dashboard.MovementValue)
  }

  /**
   * Summing the category groups over the distinct categories the movements use gives the project's total
   * spend: the pie chart covers every movement once.
   */
  lemma CategoriesCoverSpend(budget: Dashboard.RawNum, ms: seq<Dashboard.MovementRow>, cats: seq<string>)
    requires Aggregates.Distinct(cats)
    requires forall i | 0 <= i < |ms| :: ms[i].categoria in cats
    ensures Aggregates.SumEach(ms, Dashboard.MovementCategoria, Dashboard.MovementValue, cats)
            == CardsFor(budget, ms).totalGasto
  {
    Aggregates.SumEachCovers(ms, Dashboard.MovementCategoria, Dashboard.MovementValue, cats);
  }

  /** The statement tab: every movement when no category is chosen, otherwise those of the chosen categories. */
  function Shown(ms: seq<Dashboard.MovementRow>, chosen: seq<string>): seq<Dashboard.MovementRow>
  {
    if chosen == [] then ms
    else if ms == [] then []
    else
      var last := ms[|ms| - 1];
      Shown(ms[..|ms| - 1], chosen) + (if last.categoria in chosen then [last] else [])
  }

  /** The statement tab lists exactly the project's movements of the chosen categories, and no more rows. */
  lemma ShownMembers(ms: seq<Dashboard.MovementRow>, chosen: seq<string>, m: Dashboard.MovementRow)
    ensures m in Shown(ms, chosen) <==> m in ms && (chosen == [] || m.categoria in chosen)
    ensures |Shown(ms, chosen)| <= |ms|
  {
    ShownLength(ms, chosen);
    if m in Shown(ms, chosen) {
      ShownSound(ms, chosen, m);
    }
    if m in ms && (chosen == [] || m.categoria in chosen) {
      var k :| 0 <= k < |ms| && ms[k] == m;
      ShownComplete(ms, chosen, k);
    }
  }

  lemma {:induction false} ShownLength(ms: seq<Dashboard.MovementRow>, chosen: seq<string>)
    ensures |Shown(ms, chosen)| <= |ms|
  {
    if chosen != [] && ms != [] {
      ShownLength(ms[..|ms| - 1], chosen);
    }
  }

  lemma {:induction false} ShownSound(ms: seq<Dashboard.MovementRow>, chosen: seq<string>, m: Dashboard.MovementRow)
    requires m in Shown(ms, chosen)
    ensures m in ms && (chosen == [] || m.categoria in chosen)
  {
    if chosen != [] && ms != [] {
      var init, last := ms[..|ms| - 1], ms[|ms| - 1];
      if m !in Shown(init, chosen) {
        assert m == last;
      } else {
        ShownSound(init, chosen, m);
        var k :| 0 <= k < |init| && init[k] == m;
        assert ms[k] == m;
      }
    }
  }

  lemma {:induction false} ShownComplete(ms: seq<Dashboard.MovementRow>, chosen: seq<string>, k: int)
    requires 0 <= k < |ms| && (chosen == [] || ms[k].categoria in chosen)
    ensures ms[k] in Shown(ms, chosen)
  {
    if chosen != [] {
      var init, last := ms[..|ms| - 1], ms[|ms| - 1];
      if k < |ms| - 1 {
        ShownComplete(init, chosen, k);
        assert init[k] == ms[k];
      } else {
        assert ms[k] == last;
      }
    }
  }

  /** What the panel shows once there is a project to choose. */
  datatype Panel = Panel(id: int, cards: Cards, byCategory: map<string, real>, statement: seq<Dashboard.MovementRow>)

  /**
   * What the page ends with: the warning when there are no projects, the `float(None)` failure of the
   * details expander when the chosen project's budget is null, or the panel.
   */
  datatype PanelPage = NoProjects | NullBudget | Ready(panel: Panel)

  /** The page for the chosen name, which comes from the select box and so is one of the projects' names. */
  function PanelFor(ps: seq<Dashboard.ProjectRow>, all: seq<Dashboard.MovementRow>, name: string,
                    chosen: seq<string>): PanelPage
    requires ps != [] ==> name in Choices(ps)
  {
    if ps == [] then NoProjects
    else
      var id := Choices(ps)[name];
      var budget := ProjectBudget(ps, id);
      if budget.Missing? then NullBudget
      else
        var ms := MovementsOf(all, id);
        Ready(Panel(id, CardsFor(budget, ms), SpendByCategory(ms), Shown(ms, chosen)))
  }

  /** `.eq("id", id).execute().data[0]`: the budget of the first project with that id. */
  function ProjectBudget(ps: seq<Dashboard.ProjectRow>, id: int): Dashboard.RawNum
  {
    if ps == [] then Dashboard.Missing
    else if ps[0].id == id then ps[0].orcamento
    else ProjectBudget(ps[1..], id)
  }

  lemma {:induction false} ProjectBudgetFirst(ps: seq<Dashboard.ProjectRow>, k: int)
    requires 0 <= k < |ps| && forall j | 0 <= j < k :: ps[j].id != ps[k].id
    ensures ProjectBudget(ps, ps[k].id) == ps[k].orcamento
  {
    if k > 0 {
      ProjectBudgetFirst(ps[1..], k - 1);
    }
  }

  /**
   * With distinct ids, the page for a name is that of the last project with that name: it fails exactly
   * when that project's budget is null, and otherwise shows its cards, equal to its row of the dashboard.
   */
  lemma PanelMatchesSummary(ps: seq<Dashboard.ProjectRow>, all: seq<Dashboard.MovementRow>, name: string,
                            chosen: seq<string>)
    requires ps != [] && name in Choices(ps)
    requires Aggregates.Distinct(Dashboard.Ids(ps))
    ensures exists k | 0 <= k < |ps| ::
              && ps[k].nome == name
              && (PanelFor(ps, all, name, chosen).NullBudget? <==> ps[k].orcamento.Missing?)
              && (PanelFor(ps, all, name, chosen).Ready? <==> ps[k].orcamento.Num?)
              && (PanelFor(ps, all, name, chosen).Ready? ==>
                    var panel := PanelFor(ps, all, name, chosen).panel;
                    && panel.id == ps[k].id
                    && panel.cards.totalGasto == Dashboard.Summary(ps, all)[k].totalGasto
                    && panel.cards.saldo == Dashboard.Summary(ps, all)[k].saldo)
  {
    ChoicesLookup(ps, name);
    var k :| 0 <= k < |ps| && ps[k].nome == name && ps[k].id == Choices(ps)[name]
             && forall j | k < j < |ps| :: ps[j].nome != name;
    forall j | 0 <= j < k ensures ps[j].id != ps[k].id {
      Dashboard.IdsAt(ps, j);
      Dashboard.IdsAt(ps, k);
    }
    ProjectBudgetFirst(ps, k);
    PanelAgreesWithDashboard(ps, all, k);
  }
}
