/**
 * The bank-statement import page: the header check, the normalisation of the spreadsheet into statement
 * lines, the classification grid the user fills in, the filter that keeps only filled rows, and the
 * partition of those rows into unknown projects, material purchases to itemise, and entries ready to save.
 */
module Statement {
  import opened Base
  import Text
  import Amounts
  import Ledger
  import Aggregates

  /** A spreadsheet as read: the header names and, per row, the text of each cell. */
  datatype Sheet = Sheet(columns: seq<string>, rows: seq<seq<string>>)

  /** Every row has one cell per column. */
  predicate Rectangular(s: Sheet)
  {
    forall r | r in s.rows :: |r| == |s.columns|
  }

  function LowerAll(cs: seq<string>): (r: seq<string>)
    ensures |r| == |cs| && forall i | 0 <= i < |cs| :: r[i] == Text.Lower(cs[i])
  {
    if cs == [] then [] else LowerAll(cs[..|cs| - 1]) + [Text.Lower(cs[|cs| - 1])]
  }

  /** `name` occurs among the headers once both are lower-cased. */
  predicate HasColumn(columns: seq<string>, name: string)
  {
    Text.Lower(name) in LowerAll(columns)
  }

  /** The header check for the expected columns Data, Detalhes and Valor. */
  predicate HasColumns(columns: seq<string>)
  {
    HasColumn(columns, "Data") && HasColumn(columns, "Detalhes") && HasColumn(columns, "Valor")
  }

  /** The position of the first header equal to `name`, if any. */
  function IndexOf(cs: seq<string>, name: string): (r: Option<nat>)
    ensures r.Some? ==> r.value < |cs| && cs[r.value] == name && forall j | 0 <= j < r.value :: cs[j] != name
    ensures r.None? ==> name !in cs
  {
    if cs == [] then None
    else if cs[0] == name then Some(0)
    else match IndexOf(cs[1..], name)
      case None => None
      case Some(j) => Some(j + 1)
  }

  /**
   * How the corrected import finds a column: the header spelled exactly as expected if there is one,
   * otherwise the first header that matches ignoring case.
   */
  function Resolve(cs: seq<string>, name: string): Option<nat>
  {
    if IndexOf(cs, name).Some? then IndexOf(cs, name) else IndexOf(LowerAll(cs), Text.Lower(name))
  }

  /** A statement line: Obra and Descrição start empty; Categoria starts as "Depósito" for credits. */
  datatype Line = Line(data: Date, detalhes: string, categoria: Option<string>, valor: real)

  datatype ImportError = MissingColumns | ReadError

  /** The rows left by the `Detalhes != " "` filter, in their order. */
  function Kept(rows: seq<seq<string>>, d: nat): (r: seq<seq<string>>)
    requires forall k | 0 <= k < |rows| :: d < |rows[k]|
    ensures |r| <= |rows|
    ensures forall k | 0 <= k < |r| :: r[k] in rows && r[k][d] != " "
  {
    if rows == [] then []
    else
      var last := rows[|rows| - 1];
      Kept(rows[..|rows| - 1], d) + (if last[d] != " " then [last] else [])
  }

  /** One statement line from its parsed amount: credits are pre-classified as deposits, every value is made positive. */
  function ToLine(data: Date, detalhes: string, raw: real): Line
  {
    Line(data, detalhes, if raw > 0.0 then Some("Depósito") else None, if raw < 0.0 then -raw else raw)
  }

  /** Date and amount conversion of every kept row; a cell that does not convert aborts the whole read. */
  function Convert(rows: seq<seq<string>>, a: nat, d: nat, v: nat, parseDate: string -> Option<Date>)
    : Result<seq<Line>, ImportError>
    requires forall k | 0 <= k < |rows| :: a < |rows[k]| && d < |rows[k]| && v < |rows[k]|
  {
    if rows == [] then Ok([])
    else
      var row := rows[|rows| - 1];
      match Convert(rows[..|rows| - 1], a, d, v, parseDate)
      case Err(e) => Err(e)
      case Ok(lines) =>
        var date, raw := parseDate(row[a]), Amounts.ParseAmount(row[v]);
        if date.Some? && raw.Some? then Ok(lines + [ToLine(date.value, row[d], raw.value)]) else Err(ReadError)
  }

  function NormaliseAt(s: Sheet, a: nat, d: nat, v: nat, parseDate: string -> Option<Date>)
    : Result<seq<Line>, ImportError>
    requires Rectangular(s) && a < |s.columns| && d < |s.columns| && v < |s.columns|
  {
    Convert(Kept(s.rows, d), a, d, v, parseDate)
  }

  /**
   * The import as written: the header check ignores case, but the columns are then read by their exact
   * names, so a sheet whose headers differ only in case passes the column check and fails as a read error.
   */
  function NormaliseAsWritten(s: Sheet, parseDate: string -> Option<Date>): Result<seq<Line>, ImportError>
    requires Rectangular(s)
  {
    if !HasColumns(s.columns) then Err(MissingColumns)
    else
      var a, d, v := IndexOf(s.columns, "Data"), IndexOf(s.columns, "Detalhes"), IndexOf(s.columns, "Valor");
      if a.Some? && d.Some? && v.Some? then NormaliseAt(s, a.value, d.value, v.value, parseDate) else Err(ReadError)
  }

  /** The import with columns found as the header check finds them. */
  function Normalise(s: Sheet, parseDate: string -> Option<Date>): Result<seq<Line>, ImportError>
    requires Rectangular(s)
  {
    if !HasColumns(s.columns) then Err(MissingColumns)
    else
      var a, d, v := Resolve(s.columns, "Data"), Resolve(s.columns, "Detalhes"), Resolve(s.columns, "Valor");
      if a.Some? && d.Some? && v.Some? && a.value < |s.columns| && d.value < |s.columns| && v.value < |s.columns|
      then NormaliseAt(s, a.value, d.value, v.value, parseDate)
      else Err(ReadError)
  }

  /** A header that passes the case-insensitive check is always found by `Resolve`, at a real column. */
  lemma ResolveFinds(cs: seq<string>, name: string)
    requires HasColumn(cs, name)
    ensures Resolve(cs, name).Some? && Resolve(cs, name).value < |cs|
  {
  }

  /** A header spelled exactly as expected also passes the case-insensitive check. */
  lemma ExactHeaderMatches(cs: seq<string>, name: string)
    requires name in cs
    ensures HasColumn(cs, name)
  {
    var i :| 0 <= i < |cs| && cs[i] == name;
    assert LowerAll(cs)[i] == Text.Lower(name);
  }

  /** A header spelled exactly is the one `Resolve` picks. */
  lemma ResolveExact(cs: seq<string>, name: string)
    requires name in cs
    ensures Resolve(cs, name) == IndexOf(cs, name)
  {
  }

  /** With the headers spelled exactly, the corrected import reads the same columns as the original. */
  lemma NormaliseAgrees(s: Sheet, parseDate: string -> Option<Date>)
    requires Rectangular(s)
    requires "Data" in s.columns && "Detalhes" in s.columns && "Valor" in s.columns
    ensures Normalise(s, parseDate) == NormaliseAsWritten(s, parseDate)
  {
    ExactHeaderMatches(s.columns, "Data");
    ExactHeaderMatches(s.columns, "Detalhes");
    ExactHeaderMatches(s.columns, "Valor");
    ResolveExact(s.columns, "Data");
    ResolveExact(s.columns, "Detalhes");
    ResolveExact(s.columns, "Valor");
  }

  /** The lower-case headers "data", "detalhes", "valor" pass the header check. */
  lemma LowercaseHeadersPass()
    ensures HasColumns(["data", "detalhes", "valor"])
  {
    var cs := ["data", "detalhes", "valor"];
    DataLowered();
    DetalhesLowered();
    DetalhesLowercase();
    ValorLowered();
    HasColumnAt(cs, "Data", 0);
    HasColumnAt(cs, "Detalhes", 1);
    HasColumnAt(cs, "Valor", 2);
  }

  lemma HasColumnAt(cs: seq<string>, name: string, i: nat)
    requires i < |cs| && Text.Lower(cs[i]) == Text.Lower(name)
    ensures HasColumn(cs, name)
  {
    assert LowerAll(cs)[i] == Text.Lower(name);
  }

  lemma DataLowered()
    ensures Text.Lower("Data") == "data" && Text.Lower("data") == "data"
  {
  }

  lemma DetalhesLowered()
    ensures Text.Lower("Detalhes") == "detalhes"
  {
  }

  lemma DetalhesLowercase()
    ensures Text.Lower("detalhes") == "detalhes"
  {
  }

  lemma ValorLowered()
    ensures Text.Lower("Valor") == "valor" && Text.Lower("valor") == "valor"
  {
  }

  /**
   * A sheet headed "data", "detalhes", "valor" passes the header check, yet the import as written fails on
   * it with a read error.
   */
  lemma LowercaseHeadersAsWritten(parseDate: string -> Option<Date>)
    ensures HasColumns(["data", "detalhes", "valor"])
    ensures NormaliseAsWritten(Sheet(["data", "detalhes", "valor"], []), parseDate) == Err(ReadError)
  {
    LowercaseHeadersPass();
    assert IndexOf(["data", "detalhes", "valor"], "Data").None?;
  }

  /** The corrected import reads the sheet headed "data", "detalhes", "valor". */
  lemma LowercaseHeadersCorrected(parseDate: string -> Option<Date>)
    ensures Normalise(Sheet(["data", "detalhes", "valor"], []), parseDate).Ok?
  {
    var cs := ["data", "detalhes", "valor"];
    LowercaseHeadersPass();
    ResolveFinds(cs, "Data");
    ResolveFinds(cs, "Detalhes");
    ResolveFinds(cs, "Valor");
  }

  /** The corrected import reports a missing column exactly when the header check fails. */
  lemma NormaliseErrors(s: Sheet, parseDate: string -> Option<Date>)
    requires Rectangular(s)
    ensures Normalise(s, parseDate) == Err(MissingColumns) <==> !HasColumns(s.columns)
  {
    if HasColumns(s.columns) {
      ResolveFinds(s.columns, "Data");
      ResolveFinds(s.columns, "Detalhes");
      ResolveFinds(s.columns, "Valor");
      NormaliseAtNotMissing(s, Resolve(s.columns, "Data").value, Resolve(s.columns, "Detalhes").value,
                            Resolve(s.columns, "Valor").value, parseDate);
    }
  }

  lemma NormaliseAtNotMissing(s: Sheet, a: nat, d: nat, v: nat, parseDate: string -> Option<Date>)
    requires Rectangular(s) && a < |s.columns| && d < |s.columns| && v < |s.columns|
    ensures NormaliseAt(s, a, d, v, parseDate) != Err(MissingColumns)
  {
    ConvertNotMissing(Kept(s.rows, d), a, d, v, parseDate);
  }

  lemma {:induction false} ConvertNotMissing(rows: seq<seq<string>>, a: nat, d: nat, v: nat, parseDate: string -> Option<Date>)
    requires forall k | 0 <= k < |rows| :: a < |rows[k]| && d < |rows[k]| && v < |rows[k]|
    ensures Convert(rows, a, d, v, parseDate) != Err(MissingColumns)
  {
    if rows != [] {
      ConvertNotMissing(rows[..|rows| - 1], a, d, v, parseDate);
    }
  }

  /** Whether a row's date and amount cells both convert. */
  predicate RowConverts(row: seq<string>, a: nat, v: nat, parseDate: string -> Option<Date>)
    requires a < |row| && v < |row|
  {
    parseDate(row[a]).Some? && Amounts.ParseAmount(row[v]).Some?
  }

  /**
   * The conversion succeeds exactly when every row converts, and then yields one line per row, in order,
   * built from that row's date, text and amount; it never reports a missing column.
   */
  lemma {:induction false} ConvertCases(rows: seq<seq<string>>, a: nat, d: nat, v: nat, parseDate: string -> Option<Date>)
    requires forall k | 0 <= k < |rows| :: a < |rows[k]| && d < |rows[k]| && v < |rows[k]|
    ensures Convert(rows, a, d, v, parseDate).Ok? <==> forall k | 0 <= k < |rows| :: RowConverts(rows[k], a, v, parseDate)
    ensures Convert(rows, a, d, v, parseDate).Ok? ==>
              var lines := Convert(rows, a, d, v, parseDate).value;
              && |lines| == |rows|
              && forall k | 0 <= k < |rows| ::
                   lines[k] == ToLine(parseDate(rows[k][a]).value, rows[k][d], Amounts.ParseAmount(rows[k][v]).value)
  {
    if rows != [] {
      var init := rows[..|rows| - 1];
      ConvertCases(init, a, d, v, parseDate);
      forall k | 0 <= k < |init| ensures init[k] == rows[k] {
      }
    }
  }

  /** A row survives the filter exactly when its Detalhes cell is not a single space. */
  lemma {:induction false} KeptMembers(rows: seq<seq<string>>, d: nat, r: seq<string>)
    requires forall k | 0 <= k < |rows| :: d < |rows[k]|
    ensures r in Kept(rows, d) <==> r in rows && r[d] != " "
  {
    if rows != [] {
      var init := rows[..|rows| - 1];
      KeptMembers(init, d, r);
      if r in rows && r[d] != " " && r != rows[|rows| - 1] {
        var k :| 0 <= k < |rows| && rows[k] == r;
        assert init[k] == r;
      }
    }
  }

  /** Only credits are pre-classified as deposits, and every line carries the absolute value of its amount. */
  lemma ToLineClassifies(data: Date, detalhes: string, raw: real)
    ensures ToLine(data, detalhes, raw).categoria == Some("Depósito") <==> raw > 0.0
    ensures ToLine(data, detalhes, raw).categoria.None? <==> raw <= 0.0
    ensures ToLine(data, detalhes, raw).valor >= 0.0
    ensures ToLine(data, detalhes, raw).valor == raw || ToLine(data, detalhes, raw).valor == -raw
  {
  }

  /** An amount cell in the bank's format, "-1.234,56", becomes a line worth 1234.56 that is not a deposit. */
  lemma FormattedAmountLine(data: Date, detalhes: string, cents: int)
    ensures Amounts.ParseAmount(Amounts.FormatBR(cents)).Some?
    ensures var l := ToLine(data, detalhes, Amounts.ParseAmount(Amounts.FormatBR(cents)).value);
            && (l.categoria == Some("Depósito") <==> cents > 0)
            && l.valor == (if cents < 0 then -cents else cents) as real / 100.0
  {
    Amounts.FormatRoundTrip(cents);
  }

  // ---- The classification grid ----

  /** What the user does to one editable cell: leave it as it was, or set it (possibly to nothing). */
  datatype CellEdit = Keep | Set(value: Option<string>)

  /** The user's edits to one row: only Obra, Categoria and Descrição are editable. */
  datatype RowEdit = RowEdit(obra: CellEdit, categoria: CellEdit, descricao: CellEdit)

  /** A row of the grid after editing; an empty cell is None. */
  datatype EditedRow = EditedRow(data: Date, detalhes: Option<string>, obra: Option<string>,
                                 categoria: Option<string>, valor: real, descricao: Option<string>)

  function Apply(initial: Option<string>, e: CellEdit): Option<string>
  {
    match e
    case Keep => initial
    case Set(v) => v
  }

  /**
   * The grid after the user's edits: one row per line, rows can neither be added nor removed, and the
   * read-only Data, Detalhes and Valor cells are those of the line.
   */
  function Edit(lines: seq<Line>, edits: seq<RowEdit>): (r: seq<EditedRow>)
    requires |edits| == |lines|
    ensures |r| == |lines|
    ensures forall k | 0 <= k < |r| ::
              r[k].data == lines[k].data && r[k].detalhes == Some(lines[k].detalhes) && r[k].valor == lines[k].valor
    ensures forall k | 0 <= k < |r| :: edits[k].categoria == Keep ==> r[k].categoria == lines[k].categoria
    ensures forall k | 0 <= k < |r| :: edits[k].obra == Keep ==> r[k].obra.None?
  {
    seq(|lines|, k requires 0 <= k < |lines| =>
      EditedRow(lines[k].data, Some(lines[k].detalhes), Apply(None, edits[k].obra),
                Apply(lines[k].categoria, edits[k].categoria), lines[k].valor, Apply(None, edits[k].descricao)))
  }

  // ---- The validity filter ----

  /** A row that passed the filter: Obra, Categoria and Descrição are present and not blank. */
  datatype ValidRow = ValidRow(data: Date, detalhes: Option<string>, obra: string, categoria: string,
                               valor: real, descricao: string)

  /** The `^\s*$` replacement: a cell that is empty or only whitespace becomes missing. */
  function Clean(c: Option<string>): Option<string>
  {
    if c.Some? && !Text.IsBlank(c.value) then c else None
  }

  /** A row keeps its place only when all three classification cells are filled in after cleaning. */
  predicate Filled(r: EditedRow)
  {
    Clean(r.obra).Some? && Clean(r.categoria).Some? && Clean(r.descricao).Some?
  }

  function ToValid(r: EditedRow): ValidRow
    requires Filled(r)
  {
    ValidRow(r.data, Clean(r.detalhes), Clean(r.obra).value, Clean(r.categoria).value, r.valor, Clean(r.descricao).value)
  }

  /** `df_valido`: blank cells become missing, then every row missing a classification cell is dropped. */
  function ValidRows(rows: seq<EditedRow>): seq<ValidRow>
  {
    if rows == [] then []
    else
      var last := rows[|rows| - 1];
      ValidRows(rows[..|rows| - 1]) + (if Filled(last) then [ToValid(last)] else [])
  }

  /**
   * The kept rows are exactly the filled-in rows of the grid, with their three classification cells
   * non-blank; the save button is disabled exactly when no row is filled in.
   */
  lemma {:induction false} ValidRowsCases(rows: seq<EditedRow>)
    ensures forall r | r in ValidRows(rows) ::
              !Text.IsBlank(r.obra) && !Text.IsBlank(r.categoria) && !Text.IsBlank(r.descricao)
              && (r.detalhes.Some? ==> !Text.IsBlank(r.detalhes.value))
    ensures forall r | r in ValidRows(rows) :: exists k | 0 <= k < |rows| :: Filled(rows[k]) && r == ToValid(rows[k])
    ensures ValidRows(rows) == [] <==> forall k | 0 <= k < |rows| :: !Filled(rows[k])
    ensures |ValidRows(rows)| <= |rows|
    ensures forall k | 0 <= k < |rows| && Filled(rows[k]) :: ToValid(rows[k]) in ValidRows(rows)
  {
    ValidRowsComplete(rows);
    if rows != [] {
      var init := rows[..|rows| - 1];
      ValidRowsCases(init);
      forall r | r in ValidRows(rows) ensures exists k | 0 <= k < |rows| :: Filled(rows[k]) && r == ToValid(rows[k]) {
        if r in ValidRows(init) {
          var k :| 0 <= k < |init| && Filled(init[k]) && r == ToValid(init[k]);
          assert rows[k] == init[k];
        }
      }
      if ValidRows(rows) == [] {
        forall k | 0 <= k < |rows| ensures !Filled(rows[k]) {
          if k < |init| {
            assert rows[k] == init[k];
          }
        }
      }
      if ValidRows(rows) != [] && ValidRows(init) == [] {
        assert Filled(rows[|rows| - 1]);
      }
    }
  }

  /** The positions of the filled-in rows, in increasing order. */
  function FilledIndices(rows: seq<EditedRow>): seq<int>
  {
    if rows == [] then []
    else FilledIndices(rows[..|rows| - 1]) + (if Filled(rows[|rows| - 1]) then [|rows| - 1] else [])
  }

  /**
   * `dropna` keeps every filled-in row and only those, in their order: kept row i is the row at the i-th
   * filled position, and the filled positions increase and include every filled row.
   */
  lemma ValidRowsOrder(rows: seq<EditedRow>)
    ensures |FilledIndices(rows)| == |ValidRows(rows)|
    ensures forall i | 0 <= i < |FilledIndices(rows)| ::
              && 0 <= FilledIndices(rows)[i] < |rows|
              && Filled(rows[FilledIndices(rows)[i]])
              && ValidRows(rows)[i] == ToValid(rows[FilledIndices(rows)[i]])
    ensures forall i, j | 0 <= i < j < |FilledIndices(rows)| :: FilledIndices(rows)[i] < FilledIndices(rows)[j]
    ensures forall k | 0 <= k < |rows| && Filled(rows[k]) :: k in FilledIndices(rows)
  {
    FilledIndicesBounded(rows);
    forall i | 0 <= i < |FilledIndices(rows)|
      ensures Filled(rows[FilledIndices(rows)[i]]) && ValidRows(rows)[i] == ToValid(rows[FilledIndices(rows)[i]])
    {
      FilledIndexAt(rows, i);
    }
    forall k | 0 <= k < |rows| && Filled(rows[k]) ensures k in FilledIndices(rows) {
      FilledIndicesCover(rows, k);
    }
  }

  /** The positions are in range and increase, and there is one per kept row. */
  lemma {:induction false} FilledIndicesBounded(rows: seq<EditedRow>)
    ensures |FilledIndices(rows)| == |ValidRows(rows)|
    ensures forall i | 0 <= i < |FilledIndices(rows)| :: 0 <= FilledIndices(rows)[i] < |rows|
    ensures forall i, j | 0 <= i < j < |FilledIndices(rows)| :: FilledIndices(rows)[i] < FilledIndices(rows)[j]
  {
    if rows != [] {
      FilledIndicesBounded(rows[..|rows| - 1]);
    }
  }

  lemma {:induction false} FilledIndexAt(rows: seq<EditedRow>, i: int)
    requires 0 <= i < |FilledIndices(rows)|
    ensures 0 <= FilledIndices(rows)[i] < |rows| && Filled(rows[FilledIndices(rows)[i]])
            && i < |ValidRows(rows)| && ValidRows(rows)[i] == ToValid(rows[FilledIndices(rows)[i]])
  {
    FilledIndicesBounded(rows);
    var init := rows[..|rows| - 1];
    FilledIndicesBounded(init);
    if i < |FilledIndices(init)| {
      FilledIndexAt(init, i);
      assert FilledIndices(rows)[i] == FilledIndices(init)[i];
      assert ValidRows(rows)[i] == ValidRows(init)[i];
      assert rows[FilledIndices(init)[i]] == init[FilledIndices(init)[i]];
    }
  }

  lemma {:induction false} FilledIndicesCover(rows: seq<EditedRow>, k: int)
    requires 0 <= k < |rows| && Filled(rows[k])
    ensures k in FilledIndices(rows)
  {
    var init := rows[..|rows| - 1];
    if k < |rows| - 1 {
      assert init[k] == rows[k];
      FilledIndicesCover(init, k);
    }
  }

  /** Every filled-in row of the grid is kept. */
  lemma ValidRowsComplete(rows: seq<EditedRow>)
    ensures forall k | 0 <= k < |rows| && Filled(rows[k]) :: ToValid(rows[k]) in ValidRows(rows)
  {
    ValidRowsOrder(rows);
    forall k | 0 <= k < |rows| && Filled(rows[k]) ensures ToValid(rows[k]) in ValidRows(rows) {
      var i :| 0 <= i < |FilledIndices(rows)| && FilledIndices(rows)[i] == k;
      assert ValidRows(rows)[i] == ToValid(rows[k]);
    }
  }

  // ---- The partition done by "Salvar Lançamentos" ----

  /** Where a valid row goes: its upper-cased project name is unknown, it is a material purchase, or it is ready. */
  datatype Bucket = Unknown(name: string) | ToItemise | Ready(obraId: int)

  function BucketOf(r: ValidRow, projects: map<string, int>): Bucket
  {
    var name := Text.Upper(r.obra);
    if name !in projects then Unknown(name)
    else if r.categoria == "Material" then ToItemise
    else Ready(projects[name])
  }

  /** The entry a classified row becomes, filed under project `obraId`; it has no items. */
  function EntryFor(r: ValidRow, obraId: int): Ledger.Entry
  {
    Ledger.Entry(obraId, r.data, r.detalhes, r.categoria, r.valor, r.descricao, None)
  }

  /** `obras_desconhecidas`: the upper-cased name of every row whose project is unknown, one per row. */
  function UnknownNames(rows: seq<ValidRow>, projects: map<string, int>): seq<string>
  {
    if rows == [] then []
    else
      var b := BucketOf(rows[|rows| - 1], projects);
      UnknownNames(rows[..|rows| - 1], projects) + (if b.Unknown? then [b.name] else [])
  }

  /** `lista_material`: the rows of known projects classified as Material. */
  function MaterialRows(rows: seq<ValidRow>, projects: map<string, int>): seq<ValidRow>
  {
    if rows == [] then []
    else
      var last := rows[|rows| - 1];
      MaterialRows(rows[..|rows| - 1], projects) + (if BucketOf(last, projects).ToItemise? then [last] else [])
  }

  /** `lista_envio`: the entries of the remaining rows, each filed under its project's id. */
  function ReadyEntries(rows: seq<ValidRow>, projects: map<string, int>): seq<Ledger.Entry>
  {
    if rows == [] then []
    else
      var last := rows[|rows| - 1];
      var b := BucketOf(last, projects);
      ReadyEntries(rows[..|rows| - 1], projects) + (if b.Ready? then [EntryFor(last, b.obraId)] else [])
  }

  /** The loop over the valid rows that fills the three lists. */
  method Partition(rows: seq<ValidRow>, projects: map<string, int>)
    returns (unknown: seq<string>, material: seq<ValidRow>, ready: seq<Ledger.Entry>)
    ensures unknown == UnknownNames(rows, projects)
    ensures material == MaterialRows(rows, projects)
    ensures ready == ReadyEntries(rows, projects)
  {
    unknown, material, ready := [], [], [];
    var i := 0;
    while i < |rows|
      invariant 0 <= i <= |rows|
      invariant unknown == UnknownNames(rows[..i], projects)
      invariant material == MaterialRows(rows[..i], projects)
      invariant ready == ReadyEntries(rows[..i], projects)
    {
      assert rows[..i + 1][..i] == rows[..i];
      var row := rows[i];
      var obra := Text.Upper(row.obra);
      if obra !in projects {
        unknown := unknown + [obra];
      } else if row.categoria == "Material" {
        material := material + [row];
      } else {
        ready := ready + [EntryFor(row, projects[obra])];
      }
      i := i + 1;
    }
    assert rows[..|rows|] == rows;
  }

  /** Every valid row lands in exactly one of the three lists. */
  lemma {:induction false} PartitionSizes(rows: seq<ValidRow>, projects: map<string, int>)
    ensures |UnknownNames(rows, projects)| + |MaterialRows(rows, projects)| + |ReadyEntries(rows, projects)| == |rows|
  {
    if rows != [] {
      PartitionSizes(rows[..|rows| - 1], projects);
    }
  }

  /** A name is reported unknown exactly when some row carries it (upper-cased) and no project has it. */
  lemma UnknownNamesMembers(rows: seq<ValidRow>, projects: map<string, int>, name: string)
    ensures name in UnknownNames(rows, projects) <==>
              name !in projects && exists k | 0 <= k < |rows| :: Text.Upper(rows[k].obra) == name
  {
    if name in UnknownNames(rows, projects) {
      UnknownNamesSound(rows, projects, name);
    }
    if name !in projects && exists k | 0 <= k < |rows| :: Text.Upper(rows[k].obra) == name {
      var k :| 0 <= k < |rows| && Text.Upper(rows[k].obra) == name;
      UnknownNamesComplete(rows, projects, k);
    }
  }

  lemma {:induction false} UnknownNamesSound(rows: seq<ValidRow>, projects: map<string, int>, name: string)
    requires name in UnknownNames(rows, projects)
    ensures name !in projects && exists k | 0 <= k < |rows| :: Text.Upper(rows[k].obra) == name
  {
    var init := rows[..|rows| - 1];
    if name in UnknownNames(init, projects) {
      UnknownNamesSound(init, projects, name);
      var k :| 0 <= k < |init| && Text.Upper(init[k].obra) == name;
      assert rows[k] == init[k];
    } else {
      assert Text.Upper(rows[|rows| - 1].obra) == name;
    }
  }

  lemma {:induction false} UnknownNamesComplete(rows: seq<ValidRow>, projects: map<string, int>, k: int)
    requires 0 <= k < |rows| && Text.Upper(rows[k].obra) !in projects
    ensures Text.Upper(rows[k].obra) in UnknownNames(rows, projects)
  {
    var init := rows[..|rows| - 1];
    if k < |init| {
      assert init[k] == rows[k];
      UnknownNamesComplete(init, projects, k);
    }
  }

  /** A row is handed to the itemising dialog exactly when its project is known and its category is Material. */
  lemma {:induction false} MaterialRowsMembers(rows: seq<ValidRow>, projects: map<string, int>, r: ValidRow)
    ensures r in MaterialRows(rows, projects) <==>
              r in rows && Text.Upper(r.obra) in projects && r.categoria == "Material"
  {
    if rows != [] {
      var init := rows[..|rows| - 1];
      MaterialRowsMembers(init, projects, r);
      if r in rows && r != rows[|rows| - 1] {
        var k :| 0 <= k < |rows| && rows[k] == r;
        assert init[k] == r;
      }
    }
  }

  /**
   * The entries saved directly are exactly those of the rows with a known project and a category other
   * than Material, each under the id its upper-cased project name maps to.
   */
  lemma {:induction false} ReadyEntriesMembers(rows: seq<ValidRow>, projects: map<string, int>, e: Ledger.Entry)
    ensures e in ReadyEntries(rows, projects) <==>
              exists k | 0 <= k < |rows| ::
                && Text.Upper(rows[k].obra) in projects && rows[k].categoria != "Material"
                && e == EntryFor(rows[k], projects[Text.Upper(rows[k].obra)])
  {
    if rows != [] {
      var init := rows[..|rows| - 1];
      ReadyEntriesMembers(init, projects, e);
      if e in ReadyEntries(init, projects) {
        var k :| 0 <= k < |init| && Text.Upper(init[k].obra) in projects && init[k].categoria != "Material"
                 && e == EntryFor(init[k], projects[Text.Upper(init[k].obra)]);
        assert rows[k] == init[k];
      }
      if exists k | 0 <= k < |rows| :: Text.Upper(rows[k].obra) in projects && rows[k].categoria != "Material"
                                       && e == EntryFor(rows[k], projects[Text.Upper(rows[k].obra)]) {
        var k :| 0 <= k < |rows| && Text.Upper(rows[k].obra) in projects && rows[k].categoria != "Material"
                 && e == EntryFor(rows[k], projects[Text.Upper(rows[k].obra)]);
        if k < |init| {
          assert init[k] == rows[k];
        }
      }
    }
  }

  /**
   * Once every reported name has been registered (and no project removed), submitting the same rows
   * again finds no unknown project.
   */
  lemma {:induction false} OnboardingUnblocks(rows: seq<ValidRow>, before: map<string, int>, after: map<string, int>)
    requires before.Keys <= after.Keys
    requires forall n | n in UnknownNames(rows, before) :: n in after
    ensures UnknownNames(rows, after) == []
  {
    if rows != [] {
      var init := rows[..|rows| - 1];
      OnboardingUnblocks(init, before, after);
    }
  }

  // ---- The onboarding queue ----

  /** Each name once, at its first occurrence. */
  function Dedup(xs: seq<string>): seq<string>
  {
    if xs == [] then []
    else
      var d := Dedup(xs[..|xs| - 1]);
      if xs[|xs| - 1] in d then d else d + [xs[|xs| - 1]]
  }

  lemma {:induction false} DedupCorrect(xs: seq<string>)
    ensures Aggregates.Distinct(Dedup(xs))
    ensures forall x :: x in Dedup(xs) <==> x in xs
  {
    if xs != [] {
      var init := xs[..|xs| - 1];
      DedupCorrect(init);
      forall x ensures x in xs <==> x in init || x == xs[|xs| - 1] {
        if x in xs && x != xs[|xs| - 1] {
          var k :| 0 <= k < |xs| && xs[k] == x;
          assert init[k] == x;
        }
      }
    }
  }

  /** The names the onboarding dialog registers, each once. */
  function OnboardingQueue(rows: seq<ValidRow>, projects: map<string, int>): seq<string>
  {
    Dedup(UnknownNames(rows, projects))
  }

  /** The queue names every unknown project exactly once, and is empty exactly when no project is unknown. */
  lemma OnboardingQueueCorrect(rows: seq<ValidRow>, projects: map<string, int>)
    ensures Aggregates.Distinct(OnboardingQueue(rows, projects))
    ensures forall n :: n in OnboardingQueue(rows, projects) <==> n in UnknownNames(rows, projects)
    ensures OnboardingQueue(rows, projects) == [] <==> UnknownNames(rows, projects) == []
  {
    var u := UnknownNames(rows, projects);
    DedupCorrect(u);
    if u != [] {
      assert u[0] in u;
    }
  }

  /** Two rows naming the same unknown project put that name in `obras_desconhecidas` twice. */
  lemma RepeatedUnknownName(r: ValidRow, projects: map<string, int>)
    requires Text.Upper(r.obra) !in projects
    ensures UnknownNames([r, r], projects) == [Text.Upper(r.obra), Text.Upper(r.obra)]
    ensures OnboardingQueue([r, r], projects) == [Text.Upper(r.obra)]
  {
    var n := Text.Upper(r.obra);
    assert [r, r][..1] == [r];
    assert [r][..0] == [];
    assert UnknownNames([r], projects) == [n];
    assert [n, n][..1] == [n];
    assert [n][..0] == [];
    assert Dedup([n]) == [n];
  }
}
