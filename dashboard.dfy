/**
 * The company dashboard: every project joined with the sum of its movements, its balance and the share of
 * its budget already spent, the company-wide totals with their outlook label, the summary table ordered by
 * that share, and the spend per category.
 */
module Dashboard {
  import opened Base
  import Aggregates

  /** A numeric cell as read from the database: a number, or null / a value `to_numeric` cannot read. */
  datatype RawNum = Num(value: real) | Missing

  /** `pd.to_numeric(..., errors="coerce").fillna(0)`: a missing number becomes 0. */
  function Coerce(x: RawNum): real
  {
    if x.Num? then x.value else 0.0
  }

  /** A row of the `obras` table, with the columns the dashboard reads. */
  datatype ProjectRow = ProjectRow(id: int, nome: string, clienteNome: string, orcamento: RawNum)

  /** A row of the `movimentacoes` table, with the columns the dashboard reads. */
  datatype MovementRow = MovementRow(obraId: int, categoria: string, valor: RawNum)

  function MovementObra(m: MovementRow): int
  {
    m.obraId
  }

  function MovementCategoria(m: MovementRow): string
  {
    m.categoria
  }

  function MovementValue(m: MovementRow): real
  {
    Coerce(m.valor)
  }

  /** A floating-point share: a finite number or one of the infinities a division by zero yields. */
  datatype Pct = Finite(r: real) | PosInf | NegInf

  /**
   * `total / budget * 100` followed by `fillna(0)`, as the page computes it: the 0/0 case (NaN) becomes 0,
   * but a positive or negative spend over a zero budget stays infinite.
   */
  function PercentAsWritten(total: real, budget: real): Pct
  {
    if budget != 0.0 then Finite(total / budget * 100.0)
    else if total > 0.0 then PosInf
    else if total < 0.0 then NegInf
    else Finite(0.0)
  }

  /** The share of the budget spent, in percent; 0 for a project without budget, never infinite. */
  function Percent(total: real, budget: real): (r: real)
    ensures budget != 0.0 ==> r * budget == total * 100.0
    ensures budget == 0.0 ==> r == 0.0
  {
    if budget == 0.0 then 0.0 else total / budget * 100.0
  }

  /** The two shares agree exactly where the page's share is finite: wherever the budget is not 0, and at 0/0. */
  lemma PercentAgrees(total: real, budget: real)
    ensures PercentAsWritten(total, budget).Finite? <==> budget != 0.0 || total == 0.0
    ensures PercentAsWritten(total, budget).Finite? ==> PercentAsWritten(total, budget).r == Percent(total, budget)
  {
  }

  /** A project without budget that already has spending gets an infinite share on the page, 0 in the model. */
  lemma SpendingWithoutBudget(total: real)
    requires total > 0.0
    ensures PercentAsWritten(total, 0.0) == PosInf
    ensures Percent(total, 0.0) == 0.0
  {
  }

  /** Spending within a positive budget is a share between 0 and 100, as the progress column expects. */
  lemma PercentWithinBudget(total: real, budget: real)
    requires budget > 0.0 && 0.0 <= total <= budget
    ensures 0.0 <= Percent(total, budget) <= 100.0
  {
    var r := Percent(total, budget);
    assert r * budget == total * 100.0;
  }

  /** A row of the summary table. */
  datatype SummaryRow = SummaryRow(id: int, nome: string, clienteNome: string, orcamento: real,
                                   totalGasto: real, saldo: real, percentual: real)

  /** `groupby("obra_id")["Valor"].sum()`. */
  function SpendByProject(ms: seq<MovementRow>): map<int, real>
  {
    Aggregates.SumBy(ms, MovementObra, MovementValue)
  }

  /** One project's row after the left join with the spend per project and `fillna(0)`. */
  function SummaryOf(p: ProjectRow, spend: map<int, real>): SummaryRow
  {
    var orcamento := Coerce(p.orcamento);
    var gasto := if p.id in spend then spend[p.id] else 0.0;
    SummaryRow(p.id, p.nome, p.clienteNome, orcamento, gasto, orcamento - gasto, Percent(gasto, orcamento))
  }

  /** The summary table: one row per project, in the order of the projects. */
  function Summary(ps: seq<ProjectRow>, ms: seq<MovementRow>): (r: seq<SummaryRow>)
    ensures |r| == |ps|
  {
    if ps == [] then [] else Summary(ps[..|ps| - 1], ms) + [SummaryOf(ps[|ps| - 1], SpendByProject(ms))]
  }

  lemma {:induction false} SummaryAt(ps: seq<ProjectRow>, ms: seq<MovementRow>, k: int)
    requires 0 <= k < |ps|
    ensures Summary(ps, ms)[k] == SummaryOf(ps[k], SpendByProject(ms))
  {
    if k < |ps| - 1 {
      SummaryAt(ps[..|ps| - 1], ms, k);
    }
  }

  /**
   * Each project's spend is the sum of exactly its own movements, 0 when it has none; its balance is its
   * budget minus that spend.
   */
  lemma SummarySpend(ps: seq<ProjectRow>, ms: seq<MovementRow>, k: int)
    requires 0 <= k < |ps|
    ensures Summary(ps, ms)[k].id == ps[k].id
    ensures Summary(ps, ms)[k].totalGasto == Aggregates.SumWhere(ms, MovementObra, MovementValue, ps[k].id)
    ensures Summary(ps, ms)[k].saldo == Coerce(ps[k].orcamento) - Summary(ps, ms)[k].totalGasto
    ensures (forall i | 0 <= i < |ms| :: ms[i].obraId != ps[k].id) ==> Summary(ps, ms)[k].totalGasto == 0.0
  {
    SummaryAt(ps, ms, k);
    var id := ps[k].id;
    Aggregates.SumByHasKey(ms, MovementObra, MovementValue, id);
    if id in SpendByProject(ms) {
      Aggregates.SumByGroup(ms, MovementObra, MovementValue, id);
    } else {
      Aggregates.SumWhereAbsent(ms, MovementObra, MovementValue, id);
    }
    if forall i | 0 <= i < |ms| :: ms[i].obraId != id {
      Aggregates.SumWhereAbsent(ms, MovementObra, MovementValue, id);
    }
  }

  function RowBudget(s: SummaryRow): real
  {
    s.orcamento
  }

  function RowSpend(s: SummaryRow): real
  {
    s.totalGasto
  }

  function RowBalance(s: SummaryRow): real
  {
    s.saldo
  }

  function RowPercent(s: SummaryRow): real
  {
    s.percentual
  }

  /** The delta label of the company balance card. */
  datatype Outlook = LucroPrevisto | Prejuizo

  /** The four company cards. */
  datatype Company = Company(obrasAtivas: nat, totalOrcado: real, totalGasto: real, saldoGeral: real, outlook: Outlook)

  function CompanyFigures(s: seq<SummaryRow>): Company
  {
    var orcado := Aggregates.SumOf(s, RowBudget);
    var gasto := Aggregates.SumOf(s, RowSpend);
    var saldo := orcado - gasto;
    Company(|s|, orcado, gasto, saldo, if saldo > 0.0 then LucroPrevisto else Prejuizo)
  }

  lemma {:induction false} BalancesAddUp(s: seq<SummaryRow>)
    requires forall k | 0 <= k < |s| :: s[k].saldo == s[k].orcamento - s[k].totalGasto
    ensures Aggregates.SumOf(s, RowBalance) == Aggregates.SumOf(s, RowBudget) - Aggregates.SumOf(s, RowSpend)
  {
    if s != [] {
      BalancesAddUp(s[..|s| - 1]);
    }
  }

  /**
   * The company balance is the sum of the projects' balances, and the outlook reads "Lucro Previsto"
   * exactly when that sum is positive.
   */
  lemma CompanyBalance(ps: seq<ProjectRow>, ms: seq<MovementRow>)
    ensures CompanyFigures(Summary(ps, ms)).obrasAtivas == |ps|
    ensures CompanyFigures(Summary(ps, ms)).saldoGeral == Aggregates.SumOf(Summary(ps, ms), RowBalance)
    ensures CompanyFigures(Summary(ps, ms)).outlook == LucroPrevisto <==>
              Aggregates.SumOf(Summary(ps, ms), RowBalance) > 0.0
  {
    var s := Summary(ps, ms);
    forall k | 0 <= k < |s| ensures s[k].saldo == s[k].orcamento - s[k].totalGasto {
      SummaryAt(ps, ms, k);
    }
    BalancesAddUp(s);
  }

  function Ids(ps: seq<ProjectRow>): (r: seq<int>)
    ensures |r| == |ps|
  {
    if ps == [] then [] else Ids(ps[..|ps| - 1]) + [ps[|ps| - 1].id]
  }

  lemma {:induction false} IdsAt(ps: seq<ProjectRow>, k: int)
    requires 0 <= k < |ps|
    ensures Ids(ps)[k] == ps[k].id
  {
    if k < |ps| - 1 {
      IdsAt(ps[..|ps| - 1], k);
    }
  }

  lemma {:induction false} SpendIsGroupSums(ps: seq<ProjectRow>, ms: seq<MovementRow>)
    ensures Aggregates.SumOf(Summary(ps, ms), RowSpend) == Aggregates.SumEach(ms, MovementObra, MovementValue, Ids(ps))
  {
    if ps != [] {
      var init := ps[..|ps| - 1];
      SpendIsGroupSums(init, ms);
      SummarySpend(ps, ms, |ps| - 1);
      assert Summary(ps, ms)[..|ps| - 1] == Summary(init, ms);
      assert Ids(ps)[..|ps| - 1] == Ids(init);
    }
  }

  /**
   * When project ids are distinct and every movement belongs to a listed project, the company spend is the
   * sum of all movements: the left join loses none and counts none twice.
   */
  lemma CompanySpendCovers(ps: seq<ProjectRow>, ms: seq<MovementRow>)
    requires Aggregates.Distinct(Ids(ps))
    requires forall i | 0 <= i < |ms| :: exists k | 0 <= k < |ps| :: ps[k].id == ms[i].obraId
    ensures CompanyFigures(Summary(ps, ms)).totalGasto == Aggregates.SumOf(ms, MovementValue)
  {
    forall i | 0 <= i < |ms| ensures MovementObra(ms[i]) in Ids(ps) {
      var k :| 0 <= k < |ps| && ps[k].id == ms[i].obraId;
      IdsAt(ps, k);
    }
    SpendIsGroupSums(ps, ms);
    Aggregates.SumEachCovers(ms, MovementObra, MovementValue, Ids(ps));
  }

  /** `groupby("Categoria")["Valor"].sum()`: empty when there are no movements. */
  function SpendByCategory(ms: seq<MovementRow>): map<string, real>
  {
    Aggregates.SumBy(ms, MovementCategoria, MovementValue)
  }

  /** A category appears in the chart exactly when some movement has it, with the sum of exactly those movements. */
  lemma CategoryGroups(ms: seq<MovementRow>, c: string)
    ensures c in SpendByCategory(ms) <==> exists i :: 0 <= i < |ms| && ms[i].categoria == c
    ensures c in SpendByCategory(ms) ==>
              SpendByCategory(ms)[c] == Aggregates.SumWhere(ms, MovementCategoria, MovementValue, c)
  {
    Aggregates.SumByHasKey(ms, MovementCategoria, MovementValue, c);
    if c in SpendByCategory(ms) {
      Aggregates.SumByGroup(ms, MovementCategoria, MovementValue, c);
    }
  }

  /** What the page shows once it has projects. */
  datatype View = View(company: Company, table: seq<SummaryRow>, byCategory: map<string, real>)

  /** The dashboard, or None when there are no projects and the page stops with a warning. */
  function Page(ps: seq<ProjectRow>, ms: seq<MovementRow>): Option<View>
  {
    if ps == [] then None
    else
      var s := Summary(ps, ms);
      Some(View(CompanyFigures(s), Aggregates.SortDescBy(s, RowPercent), SpendByCategory(ms)))
  }

  /** The page stops exactly when there are no projects; its table holds the summary rows, highest share first. */
  lemma PageTable(ps: seq<ProjectRow>, ms: seq<MovementRow>)
    ensures Page(ps, ms).None? <==> ps == []
    ensures Page(ps, ms).Some? ==>
              && multiset(Page(ps, ms).value.table) == multiset(Summary(ps, ms))
              && forall i, j | 0 <= i < j < |Page(ps, ms).value.table| ::
                   Page(ps, ms).value.table[i].percentual >= Page(ps, ms).value.table[j].percentual
  {
    Aggregates.SortDescByCorrect(Summary(ps, ms), RowPercent);
  }
}
